# Harbinger: verified models of a predictive message queue

Harbinger is a multi-level message queue that predicts how long each job will take, routes it to a tier by that
prediction, delivers it under leases with bounded retries, and records feedback about what happened. This
project models its six hardest parts in Dafny and proves what they promise over every input, every interleaving
and every run.

`dafny verify dfyconfig.toml` checks everything.

## What is modelled

**Scheduler** (`Scheduler*.dfy`, `Simulator.dfy`). The discrete-event simulator of `tools/trace_sim.cpp`: FIFO
levels served by strict priority or by virtual clocks weighted per level, with plain or pausing aging. A state
is a value and the loop is a function of it; `Simulator` is the same loop on fields updated in place. The
indivisible actions (move the clock, complete, arrive, serve, promote, rearm) give runs, and the whole
simulation is shown to be one. Time is not monotone here: after the queue was empty the next aging time can lie
behind the clock, and the model keeps that; catch-up passes are proved to change nothing, under plain and
pausing aging alike.

**Delivery** (`Delivery*.dfy`). Submit, sweep, pull, settle, lease expiry and history pruning as a state machine
whose steps are the regions the service runs under its settlement lock. Between two such regions a message can
be held by a thread ("in transit"), which is a place of its own. The queue is any store of messages by id; clock
readings, fresh ids and fresh tokens are inputs of the steps. An Ack on a message whose time to live has run out
is answered OK and the message still goes to the dead letters: that is what the code does, `AckedUnlessExpired`
says exactly when, and `ExpiredAckIsDeadLettered` is a run of it.

**Broker queue** (`LevelShares.dfy`, `ShareFairness.dfy`, `WeightedQueue.dfy`). The multi-level queue of
`src/queue/multi_level_queue.cpp` under weighted selection: enqueue, pull, undo, sweep and aging as steps under
the queue's lock, with what the cost function answers as an input. An undone pull is refunded what the message
costs at that time, which for a message without a prediction is its level's average and may have changed since
the charge. `RefundKeepsPlace` says when the refund restores the level's place, and `RefundsDrift` is a run in
which it does not; the bounds hold for all refunds, with the excess counted.

**Duration predictor** (`Histogram.dfy`, `HistogramTolerance.dfy`, `Quantile.dfy`, `DecayingHistogram.dfy`,
`Boundaries.dfy`, `KeyTable.dfy`, `KeyShard.dfy`, `Wire.dfy`, `SnapshotCodec.dfy`, `Predictor.dfy`,
`PredictorRuns.dfy`, `PerKeyPredictor.dfy`). The lazily scaled decaying histogram, interpolated quantiles, tier
boundaries with hysteresis, the sharded least-recently-active key table, and the binary snapshot. Doubles are
reals and bins are given by a strictly increasing edge sequence; times and counters are 64 bits wide and wrap,
also where the C++ standard leaves signed overflow undefined. Four findings:

- The clock is read before a shard's lock is taken, so a reading can arrive late. The recency list stays ordered
  by activity exactly when the reading is no earlier than the activity of the keys that stay (`ApplyOrder`);
  `LateReadingBreaksOrder` is a history of three observations where it is not.
- A snapshot that holds more keys than a shard has room for keeps the *least* recently active ones
  (`OverflowKeepsOldest`), because keys are restored oldest first and the rest are skipped. `RestoredExactly`
  says which keys return, and `YoungerIsDropped` is a load that drops the younger of two.
- A snapshot may hold ages the clock cannot reach back to. `TimeExact` says which, `OrderedExactly` when the
  restored lists are in order, and `OldAgeBreaksOrder` is an accepted file after which one is not.
- A restored observation count can wrap to zero, and then nothing is published until it is enough again
  (`FirstPublication`, `WrappedCountPublishesNothing`).

**Feedback writer** (`Feedback*.dfy`). A bounded ring feeds one writer thread that appends records to segment
files. Every storage call is answered by an oracle, so a statement for all oracles is a statement for all
faults; publishers and the thread interleave step by step, down to the two halves of releasing a record.

**Text** (`Utf8.dfy`, `JsonText.dfy`, `JsonDocument.dfy`, `JsonGrammar.dfy`, `JsonReader.dfy`,
`DecimalText.dfy`). The UTF-8 check against section 3 of RFC 3629, the JSON string printer and the strict reader
against section 7 of RFC 8259, whole documents with the nesting bound, and the decimal check against section 6
of RFC 8259.

## Main results

- Weighted fairness and bounded bypass over every run of the simulator, and over every run of the broker's queue
  with refunds; a real-time aging bound; termination of the simulator with every row started and completed
  exactly once.
- Conservation of messages, the delivery budget, attempt fencing, index agreement and complete bounded
  maintenance for every interleaving of the delivery protocol.
- The scaled histogram refines naive exponential decay; a quantile is the point below which its share of the
  weight lies; boundaries are never degenerate across loads of arbitrary bytes; recency lists stay ordered under
  an exact condition on readings and ages; a key's tier is stable within its band; every reachable predictor
  state whose numbers are representable, even one restored from arbitrary accepted bytes, survives save and
  load.
- Feedback accounting, ring order, segment integrity, retention limits and durability counts under arbitrary
  storage faults, and no record is lost by healthy storage but at a call that failed.
- Printer and reader undo each other for all byte strings and all documents, and the reader accepts exactly the
  grammar, with exactly its values; the UTF-8 and decimal checks accept exactly their grammars.

Classes hold the parts the program updates in place. Each of their methods is proved equal to a function of the
old state, and the theorems are about that function.

## Model

| member | source | states |
|---|---|---|
| `SchedulerModel.ChoosePicks` | tools/trace_sim.cpp:89-101 | the scan picks a non-empty level that no other non-empty level beats: lowest clock, or highest priority, first index on ties |
| `SchedulerModel.InsertOrdered` | tools/trace_sim.cpp:68-69 | a started worker joins the running ones in order of end time, then row |
| `SchedulerModel.PromoteShape` | tools/trace_sim.cpp:130-138 | a promotion keeps every queue, counter and index well formed |
| `SchedulerInvariants.DoAccounted` | tools/trace_sim.cpp:63-103 | every action keeps each arrived row in exactly one of the queues, the workers and the finished rows, with idle, queued and promoted counts matching |
| `SchedulerInvariants.ServeRecorded` | tools/trace_sim.cpp:77-86 | a start records a non-negative wait that fixes when the row will end |
| `SchedulerInvariants.CompleteRecorded` | tools/trace_sim.cpp:109-117 | a completion records a latency equal to wait plus duration |
| `SchedulerLoop.NeverStuck` | tools/trace_sim.cpp:104-108 | while rows remain there is always a next event, and queued work implies a running worker |
| `SchedulerLoop.DispatchSound` | tools/trace_sim.cpp:87-103 | after dispatch no worker is idle or nothing is queued, with the loop invariant kept |
| `SchedulerLoop.StepSound` | tools/trace_sim.cpp:104-144 | one iteration keeps the loop invariant |
| `SchedulerLoop.StepProgress` | tools/trace_sim.cpp:104-144 | each iteration uses up an arrival or completion, or one aging pass before the next of them |
| `SchedulerLoop.SimulationComplete` | tools/trace_sim.cpp:53-146 | the loop ends with every row finished once, no worker busy, every wait non-negative and every latency its wait plus its duration |
| `SchedulerFairness.DoVirtual` | tools/trace_sim.cpp:63-67 | the floor never falls, a non-empty level's clock is at least the floor, and every clock is at most one largest charge above it |
| `SchedulerFairness.ClockIsCharge` | tools/trace_sim.cpp:93-97 | over a stretch where a level always holds work its clock moves by exactly its charges over its weight |
| `SchedulerFairness.WeightedFairness` | tools/trace_sim.cpp:87-98 | over any stretch of any run where two levels always hold work, their charges per weight differ by at most one largest charge each |
| `SchedulerFairness.BoundedBypass` | tools/trace_sim.cpp:63-98 | while a level waits unserved, another is dispatched at most floor(w_l * C / w_i) + 1 times, even if it empties and refills |
| `SchedulerAging.CatchUpIsNoop` | tools/trace_sim.cpp:107-143 | in every iteration, under plain or pausing aging and any threshold from zero up, an aging pass behind the clock changes nothing but the next aging time |
| `SchedulerAging.AgingBound` | tools/trace_sim.cpp:104-144 | a message still waiting at time t is at most at its routed level less one per whole threshold plus interval since it arrived |
| `SchedulerPausing.PausingPass` | tools/trace_sim.cpp:124-139 | after a pausing pass each level is what it was with at most one message added at its end and at most its head gone; the bottom level gains nothing and level 0 loses nothing |
| `SchedulerRuns.StepRun` | tools/trace_sim.cpp:104-144 | one iteration is a run of indivisible actions |
| `SchedulerRuns.SimulationRun` | tools/trace_sim.cpp:104-146 | the whole simulation is a run of actions in which every loop-head state occurs, so the fairness and bypass bounds hold of them |
| `SchedulerRuns.MarkedTrajectory` | tools/trace_sim.cpp:104-146 | the marked states of that run are all the loop heads from the first to the last, in order |
| `SchedulerRuns.EveryRowStartsOnce` | tools/trace_sim.cpp:74-145 | in that run every row is started exactly once and completed exactly once |
| `Simulator.Simulation.PlaceAt` | tools/trace_sim.cpp:63-67 | refines `Place`: a level that was empty rejoins no earlier than the floor of the active clocks |
| `Simulator.Simulation.StartHead` | tools/trace_sim.cpp:77-86 | refines `Start`: the head leaves its level, its wait is recorded and its completion scheduled |
| `Simulator.Simulation.PickLevel` | tools/trace_sim.cpp:90-92 | the scan over the levels returns the level `ChoosePicks` characterises |
| `Simulator.Simulation.ServeOne` | tools/trace_sim.cpp:88-101 | refines `Serve` of the chosen level, the action whose charges `WeightedFairness` bounds |
| `Simulator.Simulation.DispatchAll` | tools/trace_sim.cpp:87-103 | refines `Dispatch`, which stops only with no idle worker or nothing queued |
| `Simulator.Simulation.AgePass` | tools/trace_sim.cpp:124-140 | the two nested loops refine `Age`, the pass `AgingBound` counts |
| `Simulator.Simulation.CompleteFirst` | tools/trace_sim.cpp:109-117 | refines `Complete`, keeping count and list of finished rows equal |
| `Simulator.Simulation.ArriveNext` | tools/trace_sim.cpp:118-122 | refines `Arrive`: the next row joins its tier as of now |
| `Simulator.Simulation.HandleNext` | tools/trace_sim.cpp:105-141 | the event taken is the earliest, completions before arrivals before aging |
| `Simulator.Simulation.Run` | tools/trace_sim.cpp:104-144 | the loop terminates in the state `SimulationComplete` describes |
| `Simulator.Simulated` | tools/trace_sim.cpp:53-146 | a trace gives one non-negative wait per row and a latency that is wait plus duration |
| `LevelShares.Best` | src/queue/multi_level_queue.cpp:134-137 | the scan picks the first of the non-empty levels with the smallest clock, and none only when all are empty |
| `ShareFairness.NextKept` | src/queue/multi_level_queue.cpp:55-145 | every step keeps each clock at most one charge above the floor, and below it at most by what the level may still owe and was refunded in excess |
| `ShareFairness.NeverFarBehind` | src/queue/multi_level_queue.cpp:74-145 | in every state of every run a waiting level is at most one charge above the floor, and below it at most by what it may still owe and was refunded in excess |
| `ShareFairness.ClockIsNet` | src/queue/multi_level_queue.cpp:77-142 | a backlogged clock moves by exactly its charges less its refunds per weight |
| `ShareFairness.FairnessWithRefunds` | src/queue/multi_level_queue.cpp:55-145 | what two backlogged levels are charged per weight, less refunds, differs by at most one charge and one slack of each, where the slack is what a level may owe and all it was refunded in excess |
| `ShareFairness.BypassWithRefunds` | src/queue/multi_level_queue.cpp:132-145 | while a level waits, what another is charged less refunds is bounded by a charge of each and the slack the other began with |
| `ShareFairness.RefundKeepsPlace` | src/queue/multi_level_queue.cpp:76-83 | a pull undone at once restores the queue, and the level to its place if and only if the refund is the charge, or, for a level that rejoins at a floor above its clock, that lift |
| `ShareFairness.RefundsDrift` | src/queue/multi_level_queue.cpp:77-83 | for every n a run of pulls charged 1 and refunded 2 leaves a level n behind the floor, with the other level still holding its only message |
| `WeightedQueue.MultiLevelQueue.Enqueue` | src/queue/multi_level_queue.cpp:55-76 | a level out of range is refused; otherwise the message joins the end of its level, which is lifted to the floor if it was empty (`Next`) |
| `WeightedQueue.MultiLevelQueue.RequeueFront` | src/queue/multi_level_queue.cpp:55-83 | refines `Requeue`: the message returns to the front and its level is refunded |
| `WeightedQueue.MultiLevelQueue.PickLevel` | src/queue/multi_level_queue.cpp:134-136 | the scan loop finds `Best` |
| `WeightedQueue.MultiLevelQueue.TryDequeue` | src/queue/multi_level_queue.cpp:132-146 | refines `Dequeue`, returns the message it charged, and nothing only when every level is empty |
| `WeightedQueue.MultiLevelQueue.Remove` | src/queue/multi_level_queue.cpp:122-130 | refines `Sweep` |
| `WeightedQueue.MultiLevelQueue.PromoteOne` | src/queue/multi_level_queue.cpp:236-243 | refines `Promote` with the lift of an empty destination |
| `DeliveryInvariants.RequeueUndoesDequeue` | src/harbinger_service.cpp:607-677 | putting a pulled message back restores the broker |
| `DeliveryInvariants.FinishPlaces` | src/harbinger_service.cpp:716-781 | finishing moves a message from flight to exactly one of the queue, the dead letters and the acknowledged ones |
| `DeliveryInvariants.FirstLeaseLive` | src/harbinger_service.cpp:841-844 | the earliest lease always names an attempt in flight |
| `DeliveryInvariants.DoInv` | src/harbinger_service.cpp:577-863 | every step keeps conservation, budget, both indexes and fencing |
| `DeliveryTheorems.MessageConservation` | src/harbinger_service.cpp:463-690 | in every reachable state each submitted message is in exactly one of queue, transit, flight, dead letters and acknowledged |
| `DeliveryTheorems.DeliveryBudget` | src/harbinger_service.cpp:648-772 | deliveries in any run are at most submissions times max_retries, counts on each message match, and a max-retries dead letter was delivered exactly max_retries times |
| `DeliveryTheorems.PullInstalls` | src/harbinger_service.cpp:641-678 | a pull that is neither cancelled nor failing always installs: the ordinal and duplicate branches are unreachable |
| `DeliveryTheorems.SettleSucceeds` | src/harbinger_service.cpp:783-824 | a settlement is answered OK if and only if it names the live attempt of its owner before the deadline, or replays a retained outcome of the same owner, id and kind |
| `DeliveryTheorems.SettledTokenInert` | src/harbinger_service.cpp:793-805 | a token that took effect moves no message again, and OK on it means nothing changed |
| `DeliveryTheorems.AckedUnlessExpired` | src/harbinger_service.cpp:757-759 | an Ack that takes effect acknowledges its message if and only if it has not outlived its time to live; otherwise it is dead-lettered |
| `DeliveryTheorems.ExpiredAckIsDeadLettered` | src/harbinger_service.cpp:757-759 | a run of five steps in which an Ack is answered OK and its message is dead-lettered instead of acknowledged |
| `DeliveryTheorems.AttemptFencing` | src/harbinger_service.cpp:783-824 | if two settlements of one token succeed in a run they agree on id, owner and kind and the later changed nothing |
| `DeliveryTheorems.EvictedNeverSucceeds` | src/harbinger_service.cpp:706-714 | after its outcome is evicted a token never succeeds again |
| `DeliveryTheorems.ReclaimedNeverSucceeds` | src/harbinger_service.cpp:792-818 | a token whose attempt ended by lease expiry never succeeds at any later step, whatever it asks for |
| `DeliveryTheorems.IndexAgreement` | src/harbinger_service.cpp:706-778 | leases match attempts in flight one to one, outcomes match their table one to one, and the outcome list is within capacity at every lock release |
| `DeliveryTheorems.MaintenanceComplete` | src/harbinger_service.cpp:826-863 | maintenance reclaimed a full batch of earliest leases or left none due, and pruning spent its budget or left only retained outcomes |
| `DeliveryService.HarbingerService.RouteMessage` | src/harbinger_service.cpp:463-517 | refines `Submit`: the message is queued with its retry limit and its own or the default time to live |
| `DeliveryService.HarbingerService.InstallPulled` | src/harbinger_service.cpp:641-678 | refines `Install`: the attempt is in flight under a new lease, or the message is back in the queue, with the matching status |
| `DeliveryService.HarbingerService.DeadLetterHeld` | src/harbinger_service.cpp:219-228 | refines `DeadLetterExpired`: a swept or expired message moves from transit to the dead letters |
| `DeliveryService.HarbingerService.PruneCompletions` | src/harbinger_service.cpp:706-714 | the budgeted loop refines `Prune`, whose completeness `MaintenanceComplete` states |
| `DeliveryService.HarbingerService.FinishLocked` | src/harbinger_service.cpp:716-781 | refines `Finish`, which `FinishPlaces` shows to conserve the message |
| `DeliveryService.HarbingerService.Settle` | src/harbinger_service.cpp:783-824 | refines `Settle`, whose answers `SettleSucceeds` characterises |
| `DeliveryService.HarbingerService.ReclaimExpired` | src/harbinger_service.cpp:841-858 | the loop refines `Reclaim`: earliest lease first, within the budget |
| `DeliveryService.HarbingerService.MaintainDeliveries` | src/harbinger_service.cpp:837-860 | refines `Maintain`, the subject of `MaintenanceComplete` |
| `Histogram.BinEncloses` | src/ml/duration_predictor.cpp:75-87 | a value's bin is the one whose edges enclose it, the last one at the clamp |
| `Histogram.AddValid` | src/ml/duration_predictor.cpp:98-108 | adding keeps total equal to the sum of counts and leaves some weight |
| `Histogram.RefinesNaiveDecay` | src/ml/duration_predictor.cpp:89-121 | after any sequence of adds, censored attempts and idle gaps, counts, total, sum and censored over the scale are the naively decayed values |
| `HistogramTolerance.AddAcceptable` | src/ml/duration_predictor.cpp:98-108 | adding keeps a restored histogram within the tolerance a snapshot accepts |
| `HistogramTolerance.AddNearlyFull` | src/ml/duration_predictor.cpp:98-108 | whatever was restored, one more observation brings the counts within a millionth of the total |
| `HistogramTolerance.ShrinkAcceptable` | src/ml/duration_predictor.cpp:116-121 | so does decaying it over an idle gap |
| `Quantile.QuantilePositive` | src/ml/duration_predictor.cpp:123-136 | with any weight, even of a restored histogram whose total is off its counts, every quantile above zero is positive and at most the clamp |
| `Quantile.QuantileIncreasing` | src/ml/duration_predictor.cpp:123-136 | quantiles are strictly increasing as far as the counts reach the share |
| `Quantile.QuantileSplitsWeight` | src/ml/duration_predictor.cpp:123-136 | exactly the share q of the total, spread evenly within bins, lies below the q-quantile, or all the weight where the counts of a restored histogram fall short of that share |
| `Quantile.ViewReads` | src/ml/duration_predictor.cpp:123-143 | quantile, mean, censored fraction and weight read the same on the naively decayed weights |
| `Quantile.RenormalizationInvisible` | src/ml/duration_predictor.cpp:89-96 | renormalizing changes no quantile, mean, censored fraction or weight |
| `DecayingHistogram.Decaying.RenormalizeIfNeeded` | src/ml/duration_predictor.cpp:89-96 | dividing the array in place refines `Renormalized`, which no reading can tell apart |
| `DecayingHistogram.Decaying.Learn` | src/ml/duration_predictor.cpp:98-108 | refines `Add`, the step `RefinesNaiveDecay` compares with plain decay, and reports clamping |
| `DecayingHistogram.Decaying.LearnCensored` | src/ml/duration_predictor.cpp:110-114 | refines `AddCensored`, likewise |
| `DecayingHistogram.Decaying.Shrink` | src/ml/duration_predictor.cpp:116-121 | refines `Shrink`, likewise |
| `DecayingHistogram.Decaying.QuantileAt` | src/ml/duration_predictor.cpp:123-136 | the loop computes the quantile `QuantileSplitsWeight` characterises |
| `Boundaries.TierSplits` | src/ml/duration_predictor.cpp:66-68 | exactly the boundaries at or below a value come before its tier |
| `Boundaries.TierMonotone` | src/ml/duration_predictor.cpp:66-68 | larger estimates never get smaller tiers |
| `Boundaries.FreshUsable` | src/ml/duration_predictor.cpp:348-361 | with counts within a millionth of the total the fresh boundaries are positive and strictly increasing |
| `Boundaries.RefreshWithinBand` | src/ml/duration_predictor.cpp:362-370 | after such a refresh every published boundary is within the hysteresis band of its current quantile |
| `Boundaries.ObserveSteady` | src/ml/duration_predictor.cpp:317-326 | whatever was restored, no observation publishes malformed boundaries |
| `Boundaries.ObserveNeverDegenerate` | src/ml/duration_predictor.cpp:317-326 | whatever was restored, an observation makes no degenerate refresh and leaves a trusted histogram with boundaries |
| `Boundaries.ObserveRefreshes` | src/ml/duration_predictor.cpp:317-325 | whatever was restored, when the 64-bit count, which may have wrapped, is enough and at a refresh interval or without boundaries, levels - 1 boundaries are published within the hysteresis band of the current quantiles |
| `Boundaries.FirstPublication` | src/ml/duration_predictor.cpp:320-325 | without boundaries an observation publishes them if and only if the count, after it may have wrapped, reaches the minimum |
| `Boundaries.WrappedCountPublishesNothing` | src/ml/duration_predictor.cpp:320-325 | a load of the largest count without boundaries and then a duration: the count is zero and nothing is published |
| `Boundaries.After` | src/ml/duration_predictor.cpp:307-371 | after any history of durations and loads: no degenerate refresh, any boundaries are levels - 1 positive increasing ones, and a trusted histogram has them once it learned since the last load |
| `KeyTable.EvaluateBounds` | src/ml/duration_predictor.cpp:245-269 | a prediction's tier is below the level count; without one there is no estimate and the default priority |
| `KeyTable.EstimateMeans` | src/ml/duration_predictor.cpp:254-255 | half or three quarters of the key's total lies below the estimate, or all its weight where a restored histogram's counts fall short of that, or the estimate is the mean |
| `KeyTable.PredictedTier` | src/ml/duration_predictor.cpp:258-268 | a held tier moves down only for an estimate below its lower boundary by the band, up only for one at or above its upper boundary by the band, and then to the tier that encloses the estimate |
| `KeyTable.PredictSound` | src/ml/duration_predictor.cpp:271-287 | predicting keeps the table sound and revives no stale key |
| `KeyTable.RecordSound` | src/ml/duration_predictor.cpp:289-301 | learning keeps the list a permutation of the keys within the cap, and changes nothing when the key cannot be tracked |
| `KeyTable.RecordMeans` | src/ml/duration_predictor.cpp:226-300 | learning a duration adds one observation to its key's plainly decayed evidence, which starts empty when new or stale and is decayed over a gap of a second or more first; no other key changes |
| `KeyTable.CensorSound` | src/ml/duration_predictor.cpp:328-346 | so does recording an overrun |
| `KeyTable.EvictsOnlyIdleOldest` | src/ml/duration_predictor.cpp:211-223 | a key disappears only from a full shard, as its least recently active one, after its proven or unproven idle limit |
| `KeyTable.FullShardAdmits` | src/ml/duration_predictor.cpp:212-301 | learning a new key in a full shard succeeds if and only if the least recently active key was idle for its own limit; exactly that key makes room, and otherwise nothing changes |
| `KeyTable.ApplyOrder` | src/ml/duration_predictor.cpp:209-346 | an operation leaves an ordered table ordered if and only if it finds nothing to do or its reading is no earlier than the activity, before the call, of every key that stays behind its own |
| `KeyTable.ApplyOrderClocked` | src/ml/duration_predictor.cpp:209-346 | where times between readings fit in 64 bits, that is every other key of the table |
| `KeyTable.LateReadingBreaksOrder` | src/ml/duration_predictor.cpp:289-301 | learning a, then b, then a with a reading before that of b leaves the list out of order |
| `KeyTable.TableIsLru` | src/ml/duration_predictor.cpp:209-346 | after every history with readings in lock order, the list is a permutation of the keys ordered by activity and within the cap |
| `KeyShard.LockedShard.TouchLocked` | src/ml/duration_predictor.cpp:209-243 | refines `Touch`: a tracked key is brought up to date, a new one admitted or refused, only the oldest idle key recycled |
| `KeyShard.LockedShard.Learn` | src/ml/duration_predictor.cpp:289-301 | refines `Record`, which keeps the list a permutation ordered by activity |
| `KeyShard.LockedShard.LearnCensored` | src/ml/duration_predictor.cpp:333-345 | refines `Censor`, likewise |
| `KeyShard.LockedShard.Ask` | src/ml/duration_predictor.cpp:271-287 | refines `Predict`, which revives no stale key and answers below the level count |
| `Wire.GetsInt` | src/ml/duration_predictor.cpp:420-440 | an integer is read back from its bytes, with the rest left over |
| `Wire.GetsString` | src/ml/duration_predictor.cpp:426-452 | a length-prefixed string is read back if it is within the limit and refused otherwise |
| `SnapshotCodec.GetsHist` | src/ml/duration_predictor.cpp:511-568 | a histogram is read back |
| `SnapshotCodec.GetsBoundaries` | src/ml/duration_predictor.cpp:516-580 | published boundaries, or their absence, are read back |
| `SnapshotCodec.GetsRecord` | src/ml/duration_predictor.cpp:526-593 | a key with its histogram, age and tier is read back |
| `SnapshotCodec.GetsHeader` | src/ml/duration_predictor.cpp:505-557 | the header is accepted if and only if the context label is within 4096 bytes |
| `SnapshotCodec.RoundTrip` | src/ml/duration_predictor.cpp:504-595 | what is written is accepted exactly when file and label are within their limits, and gives back the same image |
| `SnapshotCodec.AcceptedIsRestorable` | src/ml/duration_predictor.cpp:539-595 | whatever bytes are accepted, histograms, boundaries, keys and their count are fit to be applied |
| `Predictor.CapHolds` | src/ml/duration_predictor.cpp:151-151 | a full table never exceeds the key count a snapshot may hold |
| `Predictor.RecordsTracked` | src/ml/duration_predictor.cpp:487-492 | saving lists every tracked key exactly once |
| `Predictor.RestoredExactly` | src/ml/duration_predictor.cpp:605-617 | a key is restored, with its first record, if and only if fewer keys of its shard than the cap come before that record |
| `Predictor.OverflowKeepsOldest` | src/ml/duration_predictor.cpp:605-617 | a key that is not restored found its shard full, of keys whose records are no younger |
| `Predictor.YoungerIsDropped` | src/ml/duration_predictor.cpp:535-617 | a file of two keys loaded into a shard with room for one: the older key is restored and the younger dropped |
| `Predictor.TimeExact` | src/ml/duration_predictor.cpp:612-612 | a restored time is the reading less the age if and only if the clock reaches back that far, as it does for every age up to 9223372036854 ms |
| `Predictor.OrderedExactly` | src/ml/duration_predictor.cpp:601-617 | restoring leaves every list ordered by activity if and only if the times of the records that come back are in the order of their ages |
| `Predictor.FittingAgesInOrder` | src/ml/duration_predictor.cpp:606-612 | ages the clock reaches back to are restored in order |
| `Predictor.OldAgeBreaksOrder` | src/ml/duration_predictor.cpp:593-617 | an accepted file of two keys, one 18446744073710 ms old, leaves a list out of order |
| `Predictor.LoadKeepsInvariant` | src/ml/duration_predictor.cpp:535-626 | accepted bytes give a well-formed table, with lists ordered if and only if the restored times are; rejected bytes change nothing |
| `Predictor.SnapshotRoundTrip` | src/ml/duration_predictor.cpp:483-626 | save then load is accepted exactly within the limits and restores keys, histograms, tiers, ages, boundaries and global state |
| `PredictorRuns.ObservedSteps` | src/ml/duration_predictor.cpp:307-326 | learning a duration is an operation on the key, one on the parent key and one on the global state, between which others may run |
| `PredictorRuns.StepKeepsInvariant` | src/ml/duration_predictor.cpp:271-626 | every locked region of an operation, and every load of arbitrary bytes, keeps every shard and the global state sound |
| `PredictorRuns.StepNeverDegenerate` | src/ml/duration_predictor.cpp:271-626 | no operation, loads of arbitrary bytes included, makes a degenerate refresh, and a trusted histogram that learned has boundaries |
| `PredictorRuns.After` | src/ml/duration_predictor.cpp:271-626 | after any history with loads of arbitrary bytes: every shard and the global state sound, no degenerate refresh ever, boundaries once trusted and learned |
| `PredictorRuns.ListsStayOrdered` | src/ml/duration_predictor.cpp:271-626 | after any history with readings in lock order and loads of ages the clock reaches back to, every list is ordered by activity |
| `PredictorRuns.EveryStateRoundTrips` | src/ml/duration_predictor.cpp:483-626 | after any history of operations a state whose numbers are representable survives save and load |
| `PerKeyPredictor.GlobalState.RefreshBoundaries` | src/ml/duration_predictor.cpp:348-371 | the two loops refine `Refreshed`, whose boundaries `RefreshWithinBand` places |
| `PerKeyPredictor.GlobalState.Learn` | src/ml/duration_predictor.cpp:317-325 | refines `Observe` of the global state, keeps it steady, and reports saturation |
| `PerKeyPredictor.DurationPredictor.Observe` | src/ml/duration_predictor.cpp:307-326 | refused and counted, or refines `Observed`: key, parent and global state learn, and every shard stays sound |
| `PerKeyPredictor.DurationPredictor.ObserveCensored` | src/ml/duration_predictor.cpp:328-346 | refines `KeyCensored` in the key's shard and keeps every shard sound |
| `PerKeyPredictor.DurationPredictor.Predict` | src/ml/duration_predictor.cpp:271-287 | refines `Asked` in the key's shard and keeps every shard sound |
| `PerKeyPredictor.DurationPredictor.Save` | src/ml/duration_predictor.cpp:483-531 | the collecting loop writes the bytes of `Saved`, which `SnapshotRoundTrip` reads back |
| `PerKeyPredictor.DurationPredictor.RestoreKeys` | src/ml/duration_predictor.cpp:607-617 | the loop refines `Restored`, which keeps each list ordered, and counts the keys it put back |
| `PerKeyPredictor.DurationPredictor.Load` | src/ml/duration_predictor.cpp:535-626 | refines `Loaded`, keeps every shard sound, and returns the number of keys then tracked; a failure leaves the state as it was |
| `FeedbackQueue.PushKeeps` | src/ml/feedback_writer.cpp:324-327 | admission with room left overwrites no live slot and puts the record last in line |
| `FeedbackQueue.PopKeeps` | src/ml/feedback_writer.cpp:266-268 | the thread takes the earliest admitted record still waiting |
| `FeedbackIntegrity.RetainKeeps` | src/ml/feedback_writer.cpp:161-175 | retention deletes only inactive segments and, when it succeeds, leaves the limits respected with the room asked for |
| `FeedbackIntegrity.RetentionNeverStuck` | src/ml/feedback_writer.cpp:161-175 | retention stops short only when its last call failed, never for want of a segment to delete |
| `FeedbackIntegrity.OpenSegmentKeeps` | src/ml/feedback_writer.cpp:189-198 | a new segment is empty and within the limits |
| `FeedbackIntegrity.SealKeeps` | src/ml/feedback_writer.cpp:207-215 | a sealed segment is whole, synced and closed, and a failed seal loses no count |
| `FeedbackIntegrity.AbandonKeeps` | src/ml/feedback_writer.cpp:216-227 | giving up restores the invariant from any state a failed call leaves, counting unsynced records as uncertain |
| `FeedbackSteps.WriteGrows` | src/ml/feedback_writer.cpp:239-245 | a record is appended whole, or a prefix of it is, with one torn record counted, at a last call that wrote nothing |
| `FeedbackSteps.AppendKeeps` | src/ml/feedback_writer.cpp:236-247 | a successful append adds the record after all earlier ones; a failed one leaves sealed segments whole |
| `FeedbackSteps.AppendStepKeeps` | src/ml/feedback_writer.cpp:274-280 | storing or failing to store a record keeps the invariant and counts it |
| `FeedbackSteps.SyncStepKeeps` | src/ml/feedback_writer.cpp:282-286 | after the periodic sync everything written is synced or given up |
| `FeedbackSteps.FinishStepKeeps` | src/ml/feedback_writer.cpp:288-291 | after the thread's last act everything written is synced or given up |
| `FeedbackSteps.RecoverStepKeeps` | src/ml/feedback_writer.cpp:228-235 | recovering, or failing to, keeps the invariant |
| `FeedbackFaults.AppendFaulted` | src/ml/feedback_writer.cpp:236-247 | an append fails only when its last call failed, or was a write of nothing that left a torn record, or with segment numbers used up |
| `FeedbackFaults.StartEstablishes` | src/ml/feedback_writer.cpp:176-198 | whatever files are found, a writer that starts is within its limits and sound |
| `FeedbackTheorems.OfferKeeps` | src/ml/feedback_writer.cpp:320-328 | an admission decision keeps accounting, ring and byte counts |
| `FeedbackTheorems.DoInv` | src/ml/feedback_writer.cpp:216-332 | every step of every thread keeps the whole invariant |
| `FeedbackTheorems.FeedbackAccounting` | src/ml/feedback_writer.cpp:199-332 | captured is written plus counted drops plus pending at every quiescent point, pending matches what is held and stays within the buffer, written is synced plus unsynced plus given up, and nothing is pending after the end |
| `FeedbackTheorems.SegmentIntegrity` | src/ml/feedback_writer.cpp:161-247 | every sealed segment is a concatenation of whole admitted records in admission order within the segment size, and totals stay within the retention limits |
| `FeedbackTheorems.NoSpuriousLoss` | src/ml/feedback_writer.cpp:236-280 | after every run healthy storage stores the record it is handed, unless the append stops at a call that failed or segment numbers are used up |
| `FeedbackStore.SegmentStore.Catalog` | src/ml/feedback_writer.cpp:126-143 | the scan gives the total size and the oldest inactive segment |
| `FeedbackStore.SegmentStore.Retention` | src/ml/feedback_writer.cpp:161-175 | the deletion loop refines `Retention` and terminates |
| `FeedbackStore.SegmentStore.OpenSegment` | src/ml/feedback_writer.cpp:189-198 | refines `OpenSegment` at every point a call can fail |
| `FeedbackStore.SegmentStore.SyncActive` | src/ml/feedback_writer.cpp:199-206 | refines `SyncActive`: unsynced records become synced, or nothing changes |
| `FeedbackStore.SegmentStore.Seal` | src/ml/feedback_writer.cpp:207-215 | refines `Seal` at every point a call can fail |
| `FeedbackStore.SegmentStore.Abandon` | src/ml/feedback_writer.cpp:216-227 | refines `Abandon`, from which `AbandonKeeps` recovers the invariant |
| `FeedbackStore.SegmentStore.Recover` | src/ml/feedback_writer.cpp:228-235 | refines `Recover` at every point a call can fail |
| `FeedbackStore.SegmentStore.WriteRecord` | src/ml/feedback_writer.cpp:239-245 | the loop over short writes refines `WriteAll`, of which `WriteGrows` speaks |
| `FeedbackStore.SegmentStore.Append` | src/ml/feedback_writer.cpp:274-280 | refines `AppendStep` with its failure path and keeps the whole segment invariant |
| `FeedbackStore.SegmentStore.StartUp` | src/ml/feedback_writer.cpp:176-198 | refines `Start`, the subject of `StartEstablishes` |
| `FeedbackStore.SegmentStore.Finish` | src/ml/feedback_writer.cpp:288-291 | refines `FinishStep` and keeps the whole segment invariant |
| `FeedbackBuffer.Buffer.Begin` | src/ml/feedback_writer.cpp:312-317 | refines `Begin`: the event is captured and numbered, or counted as dropped when numbers run out |
| `FeedbackBuffer.Buffer.Offer` | src/ml/feedback_writer.cpp:320-328 | refines `Offer`, the admission `OfferKeeps` accounts for |
| `FeedbackBuffer.Buffer.DiscardAll` | src/ml/feedback_writer.cpp:249-254 | the discard loop empties the ring, releasing and counting exactly what was queued |
| `FeedbackBuffer.Buffer.Take` | src/ml/feedback_writer.cpp:266-268 | refines `Take`: the thread holds the earliest admitted record |
| `FeedbackBuffer.Buffer.FinishPending` | src/ml/feedback_writer.cpp:248-248 | refines the two releases of a settled record, one after the other |
| `Utf8.FirstReadsEncoding` | src/ml/features.cpp:13-30 | an encoded scalar value is read back wherever it stands |
| `Utf8.FirstIsEncoding` | src/ml/features.cpp:13-30 | a character that is read is its code point's encoding |
| `Utf8.AcceptsExactlyUtf8` | src/ml/features.cpp:12-32 | the check accepts exactly the concatenations of encodings of Unicode scalar values |
| `Utf8.ValidUtf8` | src/ml/features.cpp:12-32 | so does the loop |
| `JsonText.StringRoundTrip` | include/util/json.hpp:100-133 | for every byte string the reader returns what was printed and stops after its closing quote |
| `JsonText.StringKeepsUtf8` | include/util/json.hpp:100-133 | a string read from well-formed UTF-8 is well-formed UTF-8, whatever escapes it uses |
| `JsonDocument.ReadsValue` | include/util/json.hpp:64-99 | a printed value is read back in any surroundings if and only if it is nested within the limit and repeats no key |
| `JsonDocument.DocumentRoundTrip` | include/util/json.hpp:45-50 | a whole printed document is read back under the same condition and refused otherwise |
| `JsonDocument.AcceptedFits` | include/util/json.hpp:64-99 | whatever text is accepted, its value is nested within the limit, repeats no key in an object and has only numbers that were converted |
| `JsonDocument.AcceptedNormalizes` | include/util/json.hpp:45-99 | printing what was read from any accepted text, however spaced and escaped, gives a text that reads the same |
| `JsonGrammar.TreeReads` | include/util/json.hpp:64-133 | every legal syntax tree, with any spacing and escapes, is read back from its rendering in any surroundings |
| `JsonGrammar.ValueTree` | include/util/json.hpp:64-133 | any value the reader returns was read from the rendering of a legal tree that means it |
| `JsonGrammar.AcceptsExactlyJson` | include/util/json.hpp:45-133 | a text is read as a value if and only if it is the rendering of a legal tree of that value, and white space |
| `JsonReader.JsonBuffer.Add` | src/ml/features.cpp:81-84 | text is appended if and only if it fits the feature limit |
| `JsonReader.JsonBuffer.AddQuoted` | src/ml/features.cpp:85-100 | a quoted string is appended if and only if the whole of it fits |
| `JsonReader.Parser.ReadString` | include/util/json.hpp:100-133 | the byte loop reads exactly `Str`, so what `StringRoundTrip` says holds of it, and advances to its end |
| `JsonReader.Parser.ReadValue` | include/util/json.hpp:64-75 | the recursive descent reads exactly `Value`, of which `ReadsValue` speaks |
| `JsonReader.Parser.ReadMembers` | include/util/json.hpp:76-88 | the member loop reads exactly an object's `Members`, refusing a repeated key |
| `JsonReader.Parser.ReadItems` | include/util/json.hpp:89-99 | the item loop reads exactly an array's `Items` |
| `JsonReader.Parser.ReadDocument` | include/util/json.hpp:45-50 | reads exactly what `DocumentRoundTrip` speaks of, and nothing may follow |
| `DecimalText.AcceptsExactlyNumbers` | src/ml/features.cpp:36-58 | the check accepts exactly the number grammar |
| `DecimalText.DecimalGrammar` | src/ml/features.cpp:36-58 | so does the loop |

## Left out

- Of the broker's queue: strict and round-robin selection, the deadline and aging caches, statistics, waiting and shutdown. Which messages are due for a sweep or a promotion is left open, so the bounds hold for any; the delivery model needs only a store by id.
- gRPC, protobuf, producers, consumers, `main`, configuration reading, benchmark routing policies, RabbitMQ and Redis adapters, and the Python analysis: foreign calls and plumbing.
- Floating-point rounding, `pow` and `log` binning: doubles are reals and bins are an edge sequence. On the wire a double is its 64-bit image, given to the format as a function and its inverse.
- The half-life factor of an idle gap is any function of the gap into (0, 1].
- Slowdown figures, learning callbacks, drift averages, latency buckets, statistics output and failure counters: they would add easy members only.
- Feedback event capture and serialization: an event is any text within the size limit, or a refusal.
- Key derivation from headers (`derive_predictor_key` and the size bins): branch-only.
- Interrupted storage calls that are retried without effect (EINTR) are not calls of the model.
- Segment names: a random instance id and a counter make them unique, so a rename never meets another file; among segments of equal age the model deletes the earliest created where the program compares paths.
- Atomic replacement of the snapshot file: only the bytes are modelled. The checksum is computed but no claim is made about collisions.
- SnapshotCodec.Parse: the reader's position is the list of bytes left, a value, where the program advances an offset in place; integers are little-endian where the program writes the machine's order and a mark for it.
- Predictor.SnapshotRoundTrip: does not claim that the time of the last idle decay survives, because load sets it to the last activity; activity is restored to the millisecond.
- PredictorRuns.EveryStateRoundTrips: the state's numbers are exact reals and must be doubles to be saved; how rounding brings them there is not modelled.
- KeyTable.TableIsLru: readings are taken in lock order; `ApplyOrder` gives the exact condition otherwise.
- PredictorRuns.Step: a load is one step, because the program loads before it serves; a save reads all shards in one step where the program locks them in turn.
- DeliveryService.HarbingerService.ReclaimExpired: the deadline index is assumed to match the attempts in flight, which `DeliveryInvariants.DoInv` keeps.
- JsonDocument.DocumentRoundTrip: which number texts the conversion accepts is a parameter; texts with other spacing or escapes are covered by `AcceptsExactlyJson`.
- FeedbackModel.Do: the thread may recover and sync whenever its state allows, not only when its timers are due, which admits more runs than the program has.
