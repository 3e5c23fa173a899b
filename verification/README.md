# Verified model of the road reservation system

This project models the decision logic of a distributed road-reservation system and proves properties
of it. A journey is planned over one or more regions, every region's validation service reserves the
road segments of its leg against capacity counters in its own Redis, and a saga coordinator turns the
regional answers into one outcome, with compensation when a region refuses. `dafny verify dfyconfig.toml`
checks everything.

| file | content |
|---|---|
| `Redis.dfy` | one region's Redis and `validate_and_reserve` / `release_segments`, one caller at a time |
| `Reservation.dfy` | the same protocol as a step machine of single Redis commands: any number of workers, crashes, lost replies, lock expiry, lock-free releases |
| `ReservationLedger.dfy` | what the counters mean: no overbooking, exact accounting, mutual exclusion, and the role of the lock TTL |
| `ReservationProgress.dfy` | why ordered try-locks cannot reject a whole batch, and agreement of the step machine with `Redis.dfy` |
| `Walks.dfy`, `AStarSearch.dfy`, `RouteService.dfy` | weighted walks, A* with re-opening and lazy deletion, `GET /routes` |
| `AStarMisroute.dfy` | the A* loop step by step, and a run misled by its heuristic |
| `Overlay.dfy`, `Planning.dfy` | Dijkstra over the region overlay, leg stitching, the saga's fan-out |
| `Saga.dfy`, `SagaConfluence.dfy` | the coordinator's decision logic; independence of order and repetition |
| `SagaRuns.dfy`, `SagaRecovery.dfy` | the coordinator split into durable effects, with a crash possible between any two; recovery |
| `SagaFinality.dfy` | what can still happen to a finished saga: re-opening, replacing, overwriting with FAILED, lost messages |
| `SagaDuplicates.dfy` | the booking records a crash in the commit loop leaves twice |
| `NewestFirst.dfy`, `Bookings.dfy` | the hash-sharded booking store against one collection; distributed top-k |
| `Rebuild.dfy` | capacity seeding and the Redis rebuild script |
| `Journeys.dfy`, `SagaJourneys.dfy`, `Conservation.dfy` | all journeys of all regions together: conservation, net effect, agreement of counters and records |
| `ConservationInterleaved.dfy` | the same with every increment and decrement a step of its own |
| `ConservationLimits.dfy` | what cancelling refused bookings, flagging and records written twice do to these |
| `Redelivery.dfy` | at-least-once delivery to a validation service, with failing lookups and inserts |
| `Outbox.dfy`, `OutboxWorker.dfy` | the booking service's in-memory outbox: all interleavings, and its code as runs of that machine |
| `Lex.dfy`, `Options.dfy` | string order, sorting, counting; `Option` |

Code that changes state step by step is modelled by classes and loops (`RegionRedis`, `Coordinator`,
`BookingStore`, `ValidationService`, `BookingOutbox`, the searches, the planner, the rebuild script), each
method proved against functions on values; the properties are lemmas about those functions. Protocols
with interleavings or crashes are step machines: `Enabled` and `Apply` give one step, `Run` a whole run.

## Assumptions

- A lock does not expire while its holder is alive (`TtlHonoured`). Neither the expiry nor the delete in the
  `finally` block looks at who owns the lock; `ExpiredLockOverbooks` shows what happens without it.
- One saga coordinator acts at a time. Leadership is not checked again once the consumer has started.
- Distances and corridor costs are non-negative reals; node ids contain no `:`.
- Admissibility of the A* heuristic is a hypothesis about `h`, not a fact about the data: edges of the custom
  graph can be shorter than the straight line between their ends. Soundness, termination and completeness
  are proved for every heuristic.
- A message counts as delivered once a `flush` after its send has returned (`SagaRuns.CompletionObligations`,
  `Outbox.NoLoss`). A Kafka client's flush can also return when a buffered send has failed for good; the code does not
  look at the result of a send, and the model does not cover that case.
- `Conservation.dfy` considers runs without faults in which only approved bookings are cancelled and none is flagged
  (`OrderlyRun`);
  `ConservationLimits.dfy` shows what the others do. The regions of a saga are the keys of its
  `segments_by_region`, which `Planning.dfy` proves of every plan.
- Mongo returns documents in insertion order where the code does not ask for an order.

## Where the code and its documentation differ

The model follows the code.

- `docs/failure-handling.md:260` describes a compare-and-set on the saga status. The services go through
  `services/data/data_client.py:112-113` and `services/data/main.py:133-136`, which drop the expected status. The
  same passage allows a repeated final outcome; with one coordinator at a time it cannot occur (`NeverBothOutcomes`,
  `AtMostOneFinal`).
- `docs/failure-handling.md:83` says that there is no reservation without a record. In the code the counters stay
  incremented when the insert or a later increment fails or the worker dies (`LostRecordBlocksLane`).
  `RecordForReservationIff` says exactly when counters and records move together, `RedeliveryAfterLostRecord` what a redelivery then does.
- `services/journey-management/main.py:495-497` returns an empty leg when the origin already is the gateway node. The
  validation service refuses a request without usable segments, so such a journey is always rejected
  (`EmptyLegNeverBooked`).
- `services/journey-management/main.py:829` marks a saga FAILED after any exception, also after one that hits a saga
  that had finished (`CommittedThenFailed`). `MessageComesIff` says which messages can still be published once a saga is
  finished, and `FailedStrands` shows a reservation that is never given back.
- `services/journey-management/main.py:678` writes ABORTED without looking at the status: over COMMITTED as well. The
  coordinator can undo it in turn, exactly in two windows (`ExternalAbortUndoneIff`): between its status check and its
  ABORTING write it re-opens the saga (`ExternalAbortReopensIff`), between its status check and its COMMITTED write it
  commits a saga that was ABORTED and publishes the approval (`ExternalAbortReplacedIff`, `ExternalAbortReplaced`). If these
  writes avoid both windows, a finished saga is settled (`FinishedIsSettled`), and its status is then whatever the last
  FAILED or external ABORTED write left (`FinishedStatusIff`).
- `services/journey-management/main.py:804-814` starts the commit loop again after a crash, and the stores accept a second
  record of the same booking: exactly for the regions already written (`CrashInCommitDuplicatesIff`,
  `RecordWrittenTwice`). A rebuild then counts the journey twice (`SecondRecordExact`).
- `services/data/data_service.py:186-190` flags whatever it finds. Flagging a cancelled booking lets it be cancelled and
  released a second time (`FlagAndCancelExact`, `FlagAndCancelUndercounts`).
- `services/journey-management/main.py:902` refuses to cancel only what is already cancelled. Cancelling a refused
  booking releases capacity it never held (`CancelRefusedExact`, with a run in `CancelRefusedUndercounts`).

## Model

| member | source | states |
|---|---|---|
| RegionalRedis.RegionRedis.ValidateAndReserve | services/validation-service/main.py:135-187 | Lock in key order, check, vehicle check, increment, unlock: the answer and the counters are those of the specification, with an increment that raises as well, and every lock is given back on every path |
| RegionalRedis.RegionRedis.Unlock | services/validation-service/main.py:182-187 | The `finally` block removes exactly the acquired locks |
| RegionalRedis.RegionRedis.ReleaseSegments | services/validation-service/main.py:190-193 | A release applies the clamped decrement once per segment |
| RegionalRedis.ClashIffLockedOrRepeated | services/validation-service/main.py:147-153 | The lock loop succeeds exactly when the segments are distinct and none is locked |
| RegionalRedis.FullIffSomeSegmentFull | services/validation-service/main.py:155-163 | The capacity loop passes exactly when every segment is below its capacity; an unseeded one never is |
| RegionalRedis.ApprovedIff | services/validation-service/main.py:135-187 | An undisturbed attempt is approved exactly when its segments are distinct, unlocked and below capacity and the vehicle is free |
| RegionalRedis.IncrementedAt | services/validation-service/main.py:176-177 | A reservation adds to every counter the number of times its segment occurs |
| RegionalRedis.ReleasedAt | services/validation-service/main.py:93-105 | A release subtracts the occurrences and stops at zero |
| RegionalRedis.ReleaseUndoesReservation | services/validation-service/main.py:190-193 | Releasing what was reserved, in any order, restores every counter |
| Reservation.SafeStep | services/validation-service/main.py:143-193 | Every single Redis command, crash, lost reply or release keeps the safety invariant |
| Reservation.NeverOverCapacity | services/validation-service/main.py:143-193 | In every reachable state of any interleaving every counter is between zero and the capacity; an unseeded segment stays at zero |
| ReservationLedger.BalancedStep | services/validation-service/main.py:176-193 | Every step changes a counter exactly by what the acting attempt comes to owe |
| ReservationLedger.NoOverbooking | services/validation-service/main.py:143-193 | Live approved reservations never exceed capacity, and the counter is exactly what the attempts owe |
| ReservationLedger.ClampNeverFires | services/validation-service/main.py:93-105 | When only approved reservations are released, each once, the clamp in the Lua script is never reached |
| ReservationLedger.ExactWhenSettled | services/validation-service/main.py:176-193 | Once all attempts have settled, each counter is the number of live reservations |
| ReservationLedger.MutualExclusion | services/validation-service/main.py:147-153 | No two live attempts hold the same segment lock |
| ReservationLedger.ExpiredLockOverbooks | services/validation-service/main.py:182-187 | Without the TTL assumption a run puts two bookings into a segment of capacity one |
| ReservationProgress.BlameAscends | services/validation-service/main.py:143-153 | Following "rejected because that attempt held this lock" leads to strictly greater keys, in every run |
| ReservationProgress.BlameLeavesEverySet | services/validation-service/main.py:143-153 | In any non-empty set of attempts with distinct segments somebody was not refused for contention or was blocked from outside the set, whoever else there was |
| ReservationProgress.SomebodyGetsThrough | services/validation-service/main.py:143-153 | Of the requests that start once earlier ones are over, with distinct segments none of which a crashed worker left locked, lock contention never refuses all |
| ReservationProgress.RepeatedSegmentNeverReserved | services/validation-service/main.py:147-153 | A request that repeats a segment contends with itself and is never reserved |
| ReservationProgress.SoloAttempt | services/validation-service/main.py:135-187 | An attempt nobody interleaves with refines the sequential specification: same answer, same counters, locks restored |
| AStarSearch.AStar | services/route-service/main.py:88-133 | For any heuristic: terminates, answers None exactly when the goal is unreachable, otherwise a simple path of real edges that costs at most the total; with a heuristic that is zero at the goal and overestimates by at most `d`, the total exceeds no walk by more than `d`; with an admissible one it is the cost of the path and the minimum |
| AStarSearch.Expand | services/route-service/main.py:123-131 | The neighbour loop keeps the search invariant and strictly shrinks the set of labels that can still improve, unless nothing changed |
| AStarSearch.Rebuild | services/route-service/main.py:112-117 | Following the parents terminates and yields the one parent chain, reversed |
| AStarSearch.RelaxParents | services/route-service/main.py:125-127 | Re-parenting an improved node keeps the parent map a tree rooted at the start, zero-weight edges included |
| AStarSearch.ChainUnique | services/route-service/main.py:113-117 | A node has exactly one parent chain |
| AStarSearch.ChainDistinct | services/route-service/main.py:113-117 | A parent chain repeats no node |
| AStarSearch.OpenOnWalk | services/route-service/main.py:108-131 | On every walk to the goal some node waits in the heap with its current label, no dearer than the walk so far |
| AStarSearch.GoalIsCheapest | services/route-service/main.py:109-117 | The first goal entry popped exceeds no walk by more than the heuristic overestimates, consistency not needed |
| AStarMisroute.InadmissibleMisroutes | services/route-service/main.py:108-131 | A graph, an inadmissible heuristic and a run of the loop from its start that returns five times the minimum cost |
| AStarSearch.PoppedGoalIsFresh | services/route-service/main.py:111-121 | The goal entry popped before the stale test carries the goal's current label, for any heuristic |
| AStarSearch.NoWalkWhenExhausted | services/route-service/main.py:133-133 | An empty heap without the goal means that no walk exists |
| AStarSearch.ImprovableShrinks | services/route-service/main.py:124-131 | Each relaxation removes an achievable cost from the finite set that bounds the search |
| RouteService.LoadGraph | services/route-service/main.py:63-70 | The edge from `u` to `v` has distance `c` exactly when both are nodes of the region and the last document about this edge says `c` |
| RouteService.FindRoute | services/route-service/main.py:224-270 | Same-node and no-path errors exactly when due; otherwise consecutive, pairwise distinct segments whose distances sum to at most the total, which is as near to the minimum as the heuristic is to admissible, and exactly the minimum under admissibility |
| RouteService.KeyInjective | services/validation-service/main.py:121-128 | Different segments have different keys |
| RouteService.RouteNeverSelfContends | services/validation-service/main.py:147-153 | A route is refused for contention only if somebody else holds one of its segments |
| Overlay.EntryOnWalk | services/journey-management/main.py:437-446 | Any walk to an unvisited region passes a heap entry that costs no more |
| Overlay.PoppedIsCheapest | services/journey-management/main.py:438-443 | A popped unvisited entry is a cheapest walk to its region |
| Overlay.VisitKeeps | services/journey-management/main.py:441-446 | Visiting a region and pushing its neighbours keeps the search invariant |
| Overlay.Dijkstra | services/journey-management/main.py:433-447 | A duplicate-free, edge-connected, minimum-cost region list, or empty exactly when the destination is unreachable |
| Overlay.OverlayShortestPath | services/journey-management/main.py:429-447 | The regions returned are joined by corridors, none occurs twice, and the corridors' costs sum to at most those of any other such list; [] exactly when there is none; equal regions included |
| Overlay.ShortestIsCheapest | services/journey-management/main.py:433-447 | A shortest path of the weighted graph is a cheapest trip over the corridors, costs summed corridor by corridor, and conversely |
| Planning.BuildLegs | services/journey-management/main.py:562-594 | The leg loop succeeds exactly when every leg between the border gateways can be routed, and stops at the first that cannot |
| Planning.PlanJourney | services/journey-management/main.py:539-607 | The path is a cheapest trip over the corridors; every gateway lookup is defined, no leg overwrites another in the per-region dictionary, and reading it along the path gives back all segments; no corridor is reported exactly when there is no trip, and a failed leg is the first unroutable one of a cheapest trip |
| Planning.LegInPlan | services/journey-management/main.py:580-600 | The segments of a plan are those of its legs in travelling order, each leg at its own place |
| Planning.FanOut | services/journey-management/main.py:659-675 | The saga sends exactly one sub-booking per entry of the per-region dictionary |
| Planning.OneRequestPerRegion | services/journey-management/main.py:661-674 | For a plan, that is one sub-booking per region of the path, carrying the region's own leg |
| Saga.Coordinator.AdvanceSaga | services/journey-management/main.py:710-824 | The effects of the coordinator on status, outcomes, messages and records are those of the specification |
| Saga.Coordinator.RecoverSaga | services/journey-management/main.py:261-343 | The same for the recovery of one saga |
| Saga.RecordEffect | services/data/data_service.py:213-218 | Recording an outcome changes one region's entry and never duplicates a region |
| SagaConfluence.Converges | services/journey-management/main.py:711-824 | In whatever order and repetition the answers come, a gathering saga ends in the one canonical result |
| SagaConfluence.OnlyOwnEvents | services/journey-management/main.py:845-851 | A saga is changed by its own messages only |
| SagaConfluence.Confluence | services/journey-management/main.py:711-851 | Two interleavings of the same answers, with repetition, other sagas' messages and the own final message coming back, give the same status, answers, releases, records and final message |
| SagaRuns.AtMostOneFinal | services/journey-management/main.py:261-346 | With crashes, exceptions, lost replies and redeliveries anywhere, at most one final outcome is ever published |
| SagaRuns.NeverBothOutcomes | services/journey-management/main.py:710-832 | A saga is never published both as approved and as rejected |
| SagaFinality.NeverReopened | services/journey-management/main.py:711-713 | A finished saga is never open again in any run whose ABORTED writes of `create_saga` all fall outside the coordinator's window before its ABORTING write |
| SagaFinality.ReopeningStepIff | services/journey-management/main.py:731-731 | The one step that re-opens a finished saga is the coordinator's ABORTING write |
| SagaFinality.ExternalAbortReopensIff | services/journey-management/main.py:676-681 | The ABORTED write can be undone by the coordinator exactly when it falls into that window |
| SagaFinality.ExternalAbortReplacedIff | services/journey-management/main.py:676-681 | The ABORTED write can be replaced by COMMITTED without re-opening exactly when it falls between the coordinator's status check and its COMMITTED write |
| SagaFinality.ExternalAbortReplaced | services/journey-management/main.py:804-823 | A concrete run in which the saga is ABORTED, then COMMITTED, and published as approved |
| SagaFinality.ExternalAbortUndoneIff | services/journey-management/main.py:676-681 | The ABORTED write can be undone in any way exactly in these two windows |
| SagaFinality.FinishedIsSettled | services/journey-management/main.py:711-832 | In every run whose ABORTED writes of `create_saga` avoid both windows, a finished saga has nothing under way that writes another status than FAILED |
| SagaFinality.ExternalAbortReopens | services/journey-management/main.py:676-681 | A concrete run in which the coordinator overwrites ABORTED |
| SagaFinality.FinishedStatusIff | services/journey-management/main.py:826-832 | From then on the status is what the last FAILED write of the exception handler or ABORTED write of `create_saga` left; no other step changes it |
| SagaFinality.CommittedThenFailed | services/journey-management/main.py:815-832 | A concrete run that ends COMMITTED, does not publish the outcome, and ends FAILED |
| SagaFinality.MessageComesIff | services/journey-management/main.py:730-832 | For a finished saga a release or final outcome can still reach its topic exactly when it is there, buffered, or about to be sent |
| SagaFinality.FailedStrands | services/journey-management/main.py:826-832 | A concrete run in which a read error leaves the saga FAILED and an approved reservation that is never released |
| SagaDuplicates.CrashInCommitDuplicatesIff | services/journey-management/main.py:804-815 | After a crash in the commit loop and recovery a region has exactly one approved record if and only if its record was not yet written |
| SagaDuplicates.RecordWrittenTwice | services/journey-management/main.py:804-815 | A run from the start that ends with two approved records of one region |
| SagaRuns.CompletionObligations | services/journey-management/main.py:730-823 | ABORTED implies a delivered release for every region recorded approved; COMMITTED implies that all regions approved and each has a record in its own or the global store; crashes may fall anywhere |
| SagaRecovery.SoloAdvance | services/journey-management/main.py:702-824 | The step machine without interruption has exactly the effect of the specification of one outcome |
| SagaRecovery.SoloRecover | services/journey-management/main.py:261-343 | The same for recovery |
| SagaRecovery.SoloAdvanceAll | services/journey-management/main.py:846-851 | The same for a list of outcomes |
| SagaRecovery.DecisionSurvives | services/journey-management/main.py:711-832 | If redelivered answers repeat the original verdict, and with the own final message coming back, no crash or fault makes a saga end other than the answers decide |
| SagaRecovery.RecoveryReachesDecision | services/journey-management/main.py:223-346 | Wherever the coordinator dies with the saga open, recovery and any redelivered answers that cover the missing ones, in any order and repetition, reach the crash-free decision and publish it |
| SagaRecovery.RecoveryNeverFails | services/journey-management/main.py:261-343 | From ABORTING, no run of recoveries, exceptions, lost replies and crashes makes a saga FAILED: it is ABORTING or ABORTED at every point |
| SagaRecovery.NextRecoveryFinishes | services/journey-management/main.py:255-325 | If such a run stops with the saga ABORTING, one recovery that is not interrupted delivers a release for every approved region and the refusal, and ends ABORTED |
| SagaRecovery.AdvanceFails | services/journey-management/main.py:826-832 | An exception anywhere in the handling of an outcome, also one replayed by the recovery of a pending saga, makes the next write FAILED |
| Bookings.ShareFindOne | services/data/data_service.py:144-146 | A point lookup on the booking's shard finds what a lookup in one collection finds |
| Bookings.ShareSetStatus | services/data/data_service.py:178-190 | A point update on one shard is the update of the whole, seen from every shard |
| Bookings.SetStatusExact | services/data/data_service.py:177-190 | The status of the first document with the id is set, and no other document or field changes |
| Bookings.FanOutComplete | services/data/data_service.py:149-164 | A fan-out returns exactly the matching documents of the whole |
| Bookings.NewestAcrossShards | services/data/data_service.py:167-174 | Newest per shard, merged and cut, has the timestamps of the newest of the whole collection |
| Bookings.BookingStore.InsertBooking | services/data/data_service.py:136-141 | The sharded store keeps standing for one collection with the document appended |
| Bookings.BookingStore.GetBookingById | services/data/data_service.py:144-146 | Finds the first document with the id in the one collection the shards stand for, and nothing exactly when there is none |
| Bookings.BookingStore.UpdateStatus | services/data/data_service.py:177-190 | Cancelling or flagging sets the status of the collection's first document with the id and changes nothing else |
| Bookings.BookingStore.GetBookingsWhere | services/data/data_service.py:149-164 | Driver and vehicle fan-outs return every matching document as often as the collection has it, and no other |
| Bookings.BookingStore.GetVehicleBooking | services/data/data_service.py:114-124 | Finds an approved or pending booking of the vehicle exactly when there is one; otherwise all its bookings are refused, cancelled or flagged |
| Bookings.BookingStore.GetAllBookings | services/data/data_service.py:167-174 | Returns documents of the collection carrying its newest timestamps in descending order |
| NewestFirst.DistributedNewest | services/data/data_service.py:170-174 | The newest `k` of the parts' newest `k` are the newest `k` of the whole, for any number of parts |
| NewestFirst.DescendingUnique | services/data/data_service.py:173-173 | A descending arrangement of the same timestamps is unique |
| Rebuild.SetAllAt | services/data/rebuild_redis.py:115-128 | After the overwrite a seeded key has the value of its last edge and other keys keep theirs |
| Rebuild.SetMissingKeeps | services/validation-service/main.py:415-430 | Seeding with SET NX changes no live counter and gives a missing key the value of the first edge for it |
| Rebuild.SetAllEdges | services/data/rebuild_redis.py:115-126 | After the overwrite a key has the value of the last edge that has both ends and leads along it, and what it had if there is none |
| Rebuild.SetMissingEdges | services/validation-service/main.py:415-430 | After seeding a key that was there has what it had, and a missing one the value of the first edge that leads along it |
| Rebuild.SeedCapacity | services/validation-service/main.py:394-430 | The pipelined seeding, cut into batches of 500: a key has a capacity exactly if it had it, or was missing and the first edge along it has that road type's capacity; the same for the counter and zero |
| Rebuild.RewriteCapacity | services/data/rebuild_redis.py:107-128 | The pipelined overwrite, cut into batches: a key has a capacity exactly if the last edge along it gives it, or no edge does and it had it; the same for the counter and zero |
| Rebuild.OccupancyByMultiset | services/data/rebuild_redis.py:156-171 | The occupancy depends only on which bookings there are, not on their order or shard |
| Rebuild.OccupancyCounted | services/data/rebuild_redis.py:156-171 | The occupancy of a key is the number of pairs of an approved or pending booking of the region and a place in it that has both ends and this key |
| Rebuild.CountBookings | services/data/rebuild_redis.py:154-171 | The scan adds to each counter the uses by the approved and pending bookings of the region |
| Rebuild.RebuildRedis | services/data/rebuild_redis.py:81-174 | Capacities are those of the last edges; a segment some edge lists has exactly the occupancy of the recorded bookings, one that none lists keeps its old counter underneath |
| Journeys.ValidateKeeps | services/validation-service/main.py:258-331 | A region is asked once, answers once, and what it approves was not counted or recorded before |
| SagaJourneys.AdvanceKeeps | services/journey-management/main.py:710-824 | The last answer decides with every region heard, and releases are sent for exactly the reservations held |
| SagaJourneys.ReleasesSent | services/journey-management/main.py:730-742 | An abort sends one release to each region that holds a reservation and none to the others |
| Journeys.CancelKeeps | services/journey-management/main.py:897-933 | A booked journey is booked in all its regions, and cancelling sends each exactly one release |
| Journeys.QuietIsSettled | services/journey-management/main.py:711-824 | With nothing on its way a journey is decided, and a region counts it exactly when it is booked there |
| Conservation.StepKeeps | services/validation-service/main.py:176-193 | Every step of every journey keeps counters equal to reservations and records equal to booked journeys |
| Conservation.CountersAreReservations | services/validation-service/main.py:176-193 | Over all runs, every regional counter is the sum of the approved reservations not yet given back |
| Conservation.ClampHasNothingToDo | services/validation-service/main.py:334-339 | When a release arrives, every counter is at least what the release takes away |
| Conservation.NetEffect | services/journey-management/main.py:730-742 | At quiescence a committed journey is counted in all its regions, a refused, aborted or cancelled one in none, and no saga is open |
| Conservation.CacheAgreement | services/data/rebuild_redis.py:156-171 | At quiescence the records of a region give exactly its live counters, segment by segment |
| Conservation.RebuildRestores | services/data/rebuild_redis.py:81-174 | Rebuilding an empty Redis from the sharded records restores the live counters |
| Conservation.ValidateAgrees | services/validation-service/main.py:258-331 | The validation step of this system is the fault-free handling of the region's request: same counters, records and answer, and the answer is yes exactly for an acceptable request with usable segments |
| Conservation.EmptyLegNeverBooked | services/validation-service/main.py:282-284 | A cross-region journey with a leg without usable segments is never committed nor recorded as approved |
| ConservationInterleaved.InterleavedIsOrderly | services/validation-service/main.py:176-193 | Every run with single-command increments and decrements is, move by move, an orderly run of the atomic system |
| ConservationInterleaved.LiveCountersAreReservations | services/validation-service/main.py:176-193 | Under any interleaving every live counter is the reservations not given back plus what validations have counted so far plus what releases have still to take away |
| ConservationInterleaved.GiveNeverClamped | services/validation-service/main.py:93-105 | Under any interleaving a release never meets a counter at zero |
| ConservationInterleaved.LiveCacheAgreement | services/data/rebuild_redis.py:156-171 | At rest the records give exactly the live counters of the interleaved system |
| ConservationLimits.CancelRefusedExact | services/journey-management/main.py:902-933 | After cancelling what a region had refused and the release that follows, its counters are right exactly when every counter it decrements was already zero |
| ConservationLimits.CancelWhileReleasing | services/journey-management/main.py:902-933 | The same while the release of the journey's own abort is still travelling: it gets two, in whatever order, and the second is the harmful one |
| ConservationLimits.CancelRefusedUndercounts | services/journey-management/main.py:902-933 | A run from the start in which one journey is booked, another is refused and cancelled, and the booked journey's place is no longer counted |
| ConservationLimits.CancelUncountedExact | services/journey-management/main.py:897-933 | The same for every journey the region does not count, whatever its records say |
| ConservationLimits.FlagAndCancelExact | services/data/data_service.py:186-190 | Flagging a cancelled booking makes it cancellable again, and the second release does harm exactly when one of its counters is above zero |
| ConservationLimits.FlagAndCancelUndercounts | services/journey-management/main.py:902-933 | A run in which a journey cancelled twice takes away the place of another that is booked |
| ConservationLimits.SecondRecordExact | services/data/rebuild_redis.py:156-171 | A second copy of an approved record makes the rebuild disagree exactly on the segments it uses |
| ConservationLimits.FlaggingExact | services/data/data_service.py:186-190 | Flagging a booked journey keeps rebuild and counters in agreement exactly on the segments it does not use |
| ConservationLimits.FlaggingUndercounts | services/data/data_service.py:186-190 | A quiescent run after which flagging makes the rebuilt counter one too small |
| Redelivery.ValidationService.ValidateAndPublish | services/validation-service/main.py:258-331 | With a failing duplicate lookup, an increment that raises, a failing insert, or a death before the insert: an approval is published exactly for an unprocessed, acceptable request with usable segments that was counted in full by a worker that lives and, outside a saga, recorded; nothing is published exactly for a processed booking or a worker that dies; the record inserted carries the request and the published answer; each counter grows by the uses of its segment if the request is reserved and not otherwise |
| Redelivery.AnswerExact | services/validation-service/main.py:276-331 | Exactly when the published outcome is an approval, and exactly when there is none |
| Redelivery.HandleExact | services/validation-service/main.py:286-312 | Exactly when a record is inserted and what is in it, and what the counters gain |
| Redelivery.SeededAcceptsIff | services/validation-service/main.py:394-430 | On an empty Redis just seeded a request is acceptable exactly when the vehicle is free, its usable segments differ and each is an edge of the region in the direction of travel |
| Redelivery.PlacesByRoadType | services/validation-service/main.py:77-89 | How many reservations a seeded or rebuilt segment takes, for each road type of the table and for the others |
| Redelivery.RedeliveryIsHarmless | services/validation-service/main.py:270-309 | Repeated one-region requests, anywhere among other requests, leave counters and records as if each had come once |
| Redelivery.FirstOnesRepeatNothing | services/validation-service/main.py:276-279 | The list used there contains no one-region request twice |
| Redelivery.SingleTwiceIsOnceIff | services/validation-service/main.py:270-309 | A second delivery of a one-region request changes nothing exactly when the booking was not cancelled or flagged before, or has nothing to reserve |
| Redelivery.SagaTwiceIsOnceIff | services/validation-service/main.py:289-331 | A second delivery of a sub-booking changes nothing exactly when the booking is processed, its segments or vehicle do not admit it, or there is no room for two |
| Redelivery.SagaRedeliveryFillsLane | services/validation-service/main.py:289-331 | One sub-booking delivered twice fills a lane of capacity two |
| Redelivery.RecordForReservationIff | services/validation-service/main.py:286-312 | Counters and records move together exactly when the record is stored, or the request is not acceptable anyway, or nothing was counted before the fault |
| Redelivery.RedeliveryAfterLostRecord | services/validation-service/main.py:270-309 | After a lost record a redelivery reserves a second time if there is room for two, and is recorded as refused otherwise |
| Redelivery.FailedLookupNeverDoubles | services/validation-service/main.py:270-309 | A recorded one-region request that comes again while the lookup fails is not reserved again; it leaves one more record, refused |
| Redelivery.LostRecordBlocksLane | services/validation-service/main.py:299-309 | On an empty lane: the answer is a refusal, no record exists, and the lane is full |
| Outbox.NoLoss | services/booking-service/main.py:47-80 | Whatever sends and flushes fail, an accepted message is in the outbox, the worker's hands, a publishing call or covered by a successful flush; one accepted once is in exactly one of them |
| Outbox.RequeueExact | services/booking-service/main.py:64-71 | After a failed flush the filter requeues the batch exactly when each message failed in all its copies or is there once |
| Outbox.EqualMessagesMerge | services/booking-service/main.py:69-69 | Two equal messages whose flush fails come back as one |
| OutboxWorker.BookingOutbox.WorkerRound | services/booking-service/main.py:50-71 | An uninterrupted round is a run of the machine with exactly its sends' and flush's reports; if the flush fails nothing counts as covered and every message of the old queue is in the new one, otherwise the queue holds each message as often as its send failed and the flush covers the rest; every accepted message waits or is covered |
| OutboxWorker.BookingOutbox.Publish | services/booking-service/main.py:73-80 | If send and flush succeed the queue stays and the message is covered, otherwise it is queued and nothing more is covered; the call is a run of the machine with exactly these reports, after which every accepted message waits or is covered |
| OutboxWorker.RoundAlone | services/booking-service/main.py:50-71 | For every outbox and every pattern of failures, the round from waking to sleeping is a run of the machine with the stated end, in which the sends and the flush report exactly that pattern in order |
| OutboxWorker.CallAlone | services/booking-service/main.py:73-80 | For every outcome of send and flush, the call is the run of acceptance, send and, if the send succeeds, flush with just these reports |
| OutboxWorker.RoundEffect | services/booking-service/main.py:56-71 | What a round leaves queued and covered, message by message, counted from the positions whose send failed |

## Left out

- HTTP endpoints, authentication, retries, notifications, the other services and all deployment code.
- Kafka, Redis and Mongo themselves: they are logs, maps and lists with atomic operations. A broker that duplicates on its own, and data lost by a Redis or Mongo crash, are not modelled.
- Geocoding, node snapping and the haversine formula: the heuristic is any function.
- Floating point: distances are reals, so the rounding of sums and of `total_km` is not covered.
- The outbox is in memory: messages in it are lost when the process dies.
- The vehicle check is an arbitrary answer in the step machine and in the journey model: it takes no lock, so vehicle uniqueness across concurrent requests is not guaranteed by the code and not claimed.
- Running the rebuild script or `/internal/reset-counters` while validations are in progress; unreachable shards during a rebuild.
- Journeys.CancelKeeps: two cancellations of one journey that overlap are not modelled, because a cancellation is one step.
- Conservation.CountersAreReservations: does not cover faults; recovery may send a release twice.
- ConservationInterleaved.LiveCountersAreReservations: leaves open what the checks of a validation decide; that they keep the counters within capacity is `Reservation.NeverOverCapacity`.
- RegionalRedis.RegionRedis.ValidateAndReserve: lock and read commands that raise, and lost replies, are in `Reservation.dfy` only.
- Saga.Coordinator.AdvanceSaga: regional writes that fail, and their fallback, are in `SagaRuns.dfy` only.
- Saga.Coordinator.RecoverSaga: failing writes and the handler around each saga are in `SagaRuns.dfy` only.
- Redelivery.ValidationService.ValidateAndPublish: the vehicle lookup always answers (its fallback treats an unreachable store as no booking), and Redis locks and reads do not raise here.
- SagaRuns.CompletionObligations: excludes the ABORTED write of `create_saga` after a failed fan-out, which releases nothing.
- Bookings.BookingStore.GetAllBookings: says nothing about the order of bookings with equal timestamps, which depends on the shards, nor about negative limits.
- OutboxWorker.BookingOutbox.Publish: a message whose send succeeded and whose flush failed may still be delivered, and is then delivered again from the outbox.
