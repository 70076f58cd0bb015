# YIM: verified models of the protocol cores

This project models the self-contained state machines of the YIM messaging backend in Dafny 4.11 and proves
their central properties for every input, every run and every interleaving the model admits. `dafny verify
dfyconfig.toml` checks it.

| files | what they model |
|---|---|
| `Arith`, `TimeWheel`, `TimeWheelSafety`, `TimeWheelRoot`, `TimeWheelCascade`, `TimeWheelPunctual`, `TimeWheelHandDown`, `TimeWheelExact`, `TimeWheelImpl` | the hierarchical time wheel behind the retry timers |
| `Delivery`, `DeliverySafety`, `DeliveryLoss`, `DeliveryServes`, `DeliveryImpl`, `DeliveryTasks` | reliable delivery: fan-out, pending registry, retry chains, offline box, marks, scan and cleanup |
| `SeqProtocol`, `SeqOrder`, `SeqAlone`, `SeqAllocator`, `Prefetch`, `NumberStack`, `NumberOrder` | number allocation: concurrent segments and their order within a process, the double-buffered allocator, the process-level prefetchers, and all of them together |
| `Send`, `SendRace` | idempotent send with Bloom answer, Redis marker and unique key, one call at a time and with calls racing |
| `Batchers`, `BatcherDrain`, `BatcherImpl` | the three coalescing batchers |
| `HashRing`, `HashRingImpl` | the consistent hash ring |
| `Frame`, `FrameStream` | the frame codec over a buffered stream |
| `Bloom`, `BloomImpl` | the double-generation Bloom filter |
| `Watermark` | the client's cumulative-ACK watermark |
| `Common` | what several modules share |

Each part has the same shape. Value-level functions and state machines say what the operations do; lemmas prove
the properties over them; where the source mutates objects, classes with the source's fields and loops are
proved equal to those functions. Beside what every step keeps, each part states what its operations achieve, in terms
of the outcome alone. Redis, MySQL, Kafka, RPC, clocks and pushes appear as maps, queues and
outcomes that are parameters of each step.

## Where the code differs from what its comments say

- `After` promises a start in [delay, delay + tick). A wheel started at any instant keeps the phase
  o = clock % tick. A task that is less than a tick away starts at once. Any other that misses no turn starts in the
  sweep at floor(expire / tick) * tick + o, which is early when expire % tick > o and late when expire % tick < o, by
  less than a tick (late by that much is within the promise); or one tick before that sweep, if an overflow level hands it down there and it is then less than a
  tick away. `TimeWheelExact.StartsExactlyAt` gives the exact clock for every delay, decided before the call, and
  `PromiseKeptIff` says exactly when the promise is kept; `EarlyStartExample` and `TimeWheelPunctual.MissedTurnExample`
  break it on either side.
- An overflow level created in the middle of its own turn copies a clock that is off its grid, refuses the first
  turn it is offered, and a task due in that turn starts a whole revolution late. `TimeWheelPunctual.OnTimeIff`
  gives the exact condition for a wheel started at any instant, decided before the call; `MissedTurnExample`
  has such a task for every number of slots, on a wheel with tick 1 started at clock 1.
- With one slot, or none, `insert` never returns for a task a tick or more away (`TimeWheelSafety.InsertTerminatesIff`).
- An acknowledgement is said to cancel all retries. A timer callback that has passed its check when the ack comes in
  still pushes once, and nothing else does until the key is registered anew (`DeliverySafety.AckSilences`, `LatePushesHappen`).
- When `BeginTx` fails, `SendMessage` returns without deleting its marker; a repeat can then be told that a
  message was stored which was not (`Send.MarkersTrueIff`, `Send.OrphanMisleads`). With overlapping calls a success
  read from a marker can name a message that is never stored although every marker is deleted as it should be
  (`SendRace.OverlapMisleads`); the row itself is written once and stays (`SendRace.OneRow`).
- A failed offline-box write is only logged; the message is marked done all the same
  (`DeliverySafety.FailedBoxForgets`). `DeliveryLoss` says exactly when a recipient is forgotten: in a fan-out, if
  the push and the box write both fail and nothing covered him before (`HandledIsCovered`); later, only by a crash or
  a failed box write that takes away his only cover (`UncoveredIff`). `lost` records exactly those steps (`LostIff`).
- `sort.Slice` is not stable: for every way it may break ties, `Add` moves keys only to the new node and `Remove`
  undoes it, if and only if no two old nodes share a vnode hash (`HashRing.AddIff`).
- Calls that do not overlap return increasing numbers only within one process, whatever races with them
  (`SeqOrder.LaterIsLarger`); with two allocators on the row a later call can return a smaller number
  (`NumberOrder.TwoAllocatorsGoBack`).
- The first arrival seeds the ACK watermark, so acknowledging it also cancels pushes below it that were never
  received (`Watermark.AckCancelsUnseenIffBelowFirst`).

## Model

| member | source | states |
|---|---|---|
| `Arith.MaskedUint32` | internal/timewheel/wheel.go:121 | truncating to uint32 and masking with size - 1 is the residue modulo size, for every power of two up to 2^32 |
| `TimeWheel.InsertKeeps` | internal/timewheel/wheel.go:105-135 | inserting keeps the chain: each overflow level's tick is its parent's span, its clock is not ahead of its parent's, every entry is in the slot of its expire time and less than one span ahead |
| `TimeWheel.InsertFits` | internal/timewheel/wheel.go:110-124 | an entry that fits some existing level creates no level, moves no clock and touches nothing above that level |
| `TimeWheel.DrainKeeps` | internal/timewheel/wheel.go:187-196 | draining a bucket, with its re-insertions, keeps the chain and the clocks |
| `TimeWheel.AdvanceKeeps` | internal/timewheel/wheel.go:168-184 | one `advance` at any level and any `now` keeps the chain and the ticks, adds no level and turns no clock back |
| `TimeWheelSafety.ExactlyOnce` | internal/timewheel/wheel.go:38-196 | over any driver schedule each task given is started by the wheel, run at once, or held, exactly as often as it was given |
| `TimeWheelSafety.NeverInTwoBuckets` | internal/timewheel/wheel.go:178-195 | a task given once is in at most one bucket of one level, and not also started |
| `TimeWheelSafety.InsertStartedIff` | internal/timewheel/wheel.go:107-116 | `insert` starts a task itself if and only if less than one root tick is left; no overflow level ever does |
| `TimeWheelSafety.NeverEarly` | internal/timewheel/wheel.go:105-151 | in any run with any `now` values and any number of levels a task starts only when its expire time is less than one root tick after the root's clock |
| `TimeWheelSafety.InsertEnds` | internal/timewheel/wheel.go:105-135 | with two or more slots the loop of `insert` ends, for every chain and expire time, with the result of `InsertAt` |
| `TimeWheelSafety.InsertTerminatesIff` | internal/timewheel/wheel.go:105-151 | `insert` ends for every expire time if and only if the wheel has at least two slots, none and one included |
| `TimeWheelRoot.RootSweep` | internal/timewheel/wheel.go:168-195 | an accepted tick sweeps from the root exactly the entries whose tick it is, and starts them |
| `TimeWheelRoot.RootTimely` | internal/timewheel/wheel.go:168-195 | over consecutive ticks a root entry is kept until the tick of its expire time and started in that one, distance equal to size included |
| `TimeWheelCascade.AcceptedTurn` | internal/timewheel/wheel.go:170-182 | when a level accepts the turn of `now`, which starts the root's phase after a multiple of its tick, its clock jumps by one turn, or by two if it was off its grid |
| `TimeWheelCascade.InsertTimed` | internal/timewheel/wheel.go:105-151 | inserting keeps every level in step with the root and every entry prompt or stuck, and makes the new entry stuck if and only if it lands in the turn its level will refuse |
| `TimeWheelCascade.HandedDown` | internal/timewheel/wheel.go:187-196 | an entry that fits level j goes to level j or below, becomes prompt there, moves no clock, touches no higher level and makes nothing stuck |
| `TimeWheelCascade.DrainTimed` | internal/timewheel/wheel.go:187-196 | a whole sweep of level k keeps every level timely and leaves level k and all levels above it as they are |
| `TimeWheelPunctual.AdvanceTimed` | internal/timewheel/wheel.go:168-184 | one tick of the root, at any phase, with all the turns it causes keeps every level in step and every entry prompt or stuck |
| `TimeWheelPunctual.FiresOnTime` | internal/timewheel/wheel.go:94-196 | under a one-tick driver, for every task not put to miss its turn, the hierarchy agrees with a plain list: started once the root shows its tick, never a whole tick ahead |
| `TimeWheelPunctual.FreshTimed` | internal/timewheel/wheel.go:73-89 | a fresh wheel started at any instant satisfies the premises of these theorems |
| `TimeWheelPunctual.StuckStartsAt` | internal/timewheel/wheel.go:168-184 | a stuck task starts exactly when its turn comes round again |
| `TimeWheelPunctual.MissedStartsAt` | internal/timewheel/wheel.go:138-150 | a task put to miss its turn starts exactly one revolution of its level later, more than size - 1 of that level's ticks late |
| `TimeWheelPunctual.RootNeverMisses` | internal/timewheel/wheel.go:117-124 | a task within the root's span never misses its turn |
| `TimeWheelPunctual.OnTimeStartsAt` | internal/timewheel/wheel.go:94-95 | a task that misses no turn has been started once the clock reaches floor(expire / tick) * tick + phase, not while it is a whole tick away, and exactly there if expire % tick is at least the phase; that sweep is early or late, by less than a tick, as expire % tick is above or below the phase |
| `TimeWheelPunctual.RootStartsAt` | internal/timewheel/wheel.go:117-124 | a task within the root's span starts exactly in the sweep of its tick, whatever the phase |
| `TimeWheelPunctual.OnTimeIff` | internal/timewheel/wheel.go:138-196 | for every start of the wheel: when the root first shows the tick of its expire time, a task has been started if and only if it did not, before the call, land in a turn its level refuses |
| `TimeWheelPunctual.MissedTurnExample` | internal/timewheel/wheel.go:138-150 | on every wheel with tick 1 at clock 1, a delay of `size` is due at size + 1 and starts only at (1 + size) * size |
| `TimeWheelExact.StartsExactlyAt` | internal/timewheel/wheel.go:94-196 | under a one-tick driver, for every start of the wheel and every delay: a task has been started if and only if it was less than a tick away at the call or the clock has reached the sweep named before the call |
| `TimeWheelExact.StartsExactlyFromStart` | internal/timewheel/wheel.go:73-196 | the same, for a wheel built at any instant from 0 on and after any run of it, with no premise about its state |
| `TimeWheelExact.PromiseKeptIff` | internal/timewheel/wheel.go:94-102 | for every start of the wheel and every delay: a task starts in [delay, delay + tick) if and only if it is a tick away or more, misses no turn, is not handed down a tick early, and expire % tick is at most the phase |
| `TimeWheelExact.PromiseBroken` | internal/timewheel/wheel.go:94-102 | a task starts a tick late or more exactly if it misses its turn, and before its expire time exactly in the other cases |
| `TimeWheelExact.EarlyStartExample` | internal/timewheel/wheel.go:105-116 | for every number of slots, on a wheel with tick 2 at clock 1, a delay of 2 * size + 1 expires at 2 * size + 2 and starts at 2 * size + 1 |
| `TimeWheelExact.StartsEarly` | internal/timewheel/wheel.go:105-116 | a task that an overflow level hands down one tick before its due sweep, less than a tick away, starts there |
| `TimeWheelExact.StartsNotEarly` | internal/timewheel/wheel.go:168-196 | a task beyond the root's span that is not handed down there does not start before its due sweep |
| `TimeWheelHandDown.InsertHeldFrom` | internal/timewheel/wheel.go:105-135 | an insertion adds its entry to one level, the one it lands on, and to no other |
| `TimeWheelHandDown.OwnHeldFrom` | internal/timewheel/wheel.go:174-196 | the copies a level sweeps leave it, and none goes to that level or above |
| `TimeWheelHandDown.OncePerLevel` | internal/timewheel/wheel.go:168-196 | over a run, of a task given once every level up to the one it landed on sweeps the copy at most once and puts it back at most once, the root and the levels above never |
| `TimeWheelHandDown.FewReinsertions` | internal/timewheel/wheel.go:186-196 | over a run a task is put back into buckets at most as often as there are levels below the one it landed on |
| `TimeWheelHandDown.TakenAreStarted` | internal/timewheel/wheel.go:174-196 | in one tick, of the copies the sweeps take exactly those are not put back that it starts |
| `TimeWheelHandDown.TakenLeaves` | internal/timewheel/wheel.go:174-196 | when nothing comes down on a level, exactly the copies it sweeps leave it |
| `TimeWheelHandDown.EachCounts` | internal/timewheel/wheel.go:187-196 | what each level puts back is in the total |
| `TimeWheelHandDown.RunTakenAreStarted` | internal/timewheel/wheel.go:168-196 | the same over a run |
| `TimeWheelImpl.Timer.constructor` | internal/timewheel/wheel.go:73-89 | a new wheel has one level at the given clock and empty slots |
| `TimeWheelImpl.Timer.AddToSlot` | internal/timewheel/wheel.go:117-125 | the entry is appended to the slot of its expire time |
| `TimeWheelImpl.Timer.AddOverflow` | internal/timewheel/wheel.go:127-131 | the lazily built level is the chain's next one |
| `TimeWheelImpl.Timer.Insert` | internal/timewheel/wheel.go:105-135 | the loop over the linked levels has exactly the effect of `InsertAt` |
| `TimeWheelImpl.Timer.After` | internal/timewheel/wheel.go:96-102 | a delay of zero or less runs the task at once, any other inserts it at now + delay; it is the runs' step for that task |
| `TimeWheelImpl.Timer.DrainBucket` | internal/timewheel/wheel.go:187-196 | the loop over a taken bucket equals `Drain` |
| `TimeWheelImpl.Timer.TakeBucket` | internal/timewheel/wheel.go:174-188 | the clock is set and the bucket of `now` emptied |
| `TimeWheelImpl.Timer.Advance` | internal/timewheel/wheel.go:168-184 | the recursion over the overflow levels equals `AdvanceAt` |
| `TimeWheelImpl.Timer.OnTick` | internal/timewheel/wheel.go:153-163 | a tick of the driver is the runs' tick |
| `Delivery.HandleFollows` | internal/message/delivery.go:148-176 | one turn of the fan-out loop makes a non-sender safe and leaves everyone safe who was |
| `Delivery.HandledKey` | internal/message/delivery.go:161-175 | a member other than the sender is registered under (uid, conv, max_seq) with a first-level chain if the push got through, else boxed, or lost when the box write fails; nothing else changes |
| `Delivery.FireFollows` | internal/message/delivery.go:302-310 | a firing timer, whether it finds its key acknowledged or waiting, forgets nobody and leaves every pending key a live chain |
| `Delivery.RepushFollows` | internal/message/delivery.go:306-310 | the push after the check forgets nobody, whatever came in between |
| `Delivery.AfterPushFollows` | internal/message/delivery.go:312-318 | scheduling the next level, or giving up at the last, forgets nobody |
| `Delivery.AckFollows` | internal/message/delivery.go:399-411 | a cumulative ack forgets nobody |
| `Delivery.ForgetFollows` | internal/message/delivery.go:343-356 | a crash forgets nobody silently: `lost` gains exactly the keys that were pending or about to be boxed |
| `DeliverySafety.CommitKeeps` | internal/message/service.go:281-308 | committing the message and its local_message row in one transaction keeps the invariant, queued or dropped |
| `DeliverySafety.ConsumeKeeps` | internal/message/delivery.go:113-142 | consuming an event, once or again, with or without a member list, keeps the invariant |
| `DeliverySafety.ScanKeeps` | internal/message/compensation.go:67-131 | a scan keeps the invariant; a scanned row always has its message, so the row-missing branch is never taken |
| `DeliverySafety.FinishKeeps` | internal/message/delivery.go:182-184 | only a fan-out that went through all its members is marked |
| `DeliverySafety.MarksReturnKeeps` | internal/message/delivery.go:267-288 | a batched UPDATE, whether it works or not, closes only served messages |
| `DeliverySafety.StepKeeps` | internal/message/delivery.go:126-421 | every step of the protocol keeps the invariant |
| `DeliverySafety.NobodyForgotten` | internal/message/delivery.go:126-421 | after any run each committed message has status 0, or some complete fan-out of it has every non-sender pending with a live chain, acknowledged, boxed, about to be boxed, or in `lost` |
| `DeliverySafety.NothingLost` | internal/message/delivery.go:331-341 | `lost` stays empty while box writes succeed and the process stays up |
| `DeliverySafety.FailedBoxForgets` | internal/message/delivery.go:331-341 | one failed box write ends with status 1 and a recipient that has nothing |
| `DeliveryServes.CommitOpens` | internal/message/service.go:281-308 | a commit stores the message, opens its row with status 0 and queues its event unless it is dropped |
| `DeliveryServes.ConsumeStarts` | internal/message/delivery.go:126-148 | consuming an event with a member list starts one fan-out of exactly that event; the event leaves the queue unless it is delivered again |
| `DeliveryServes.ScanStarts` | internal/message/compensation.go:77-131 | in every reachable state the scan of an open row starts one fan-out of the event as it was committed |
| `DeliveryServes.LookupFails` | internal/message/delivery.go:138-142 | a failed member lookup delivers nothing and leaves the row to the next scan |
| `DeliveryServes.ScanWithoutMessage` | internal/message/compensation.go:119-124 | an open row without a message is closed and delivers nothing |
| `DeliveryServes.ScanServes` | internal/message/compensation.go:67-131 | from every reachable state, an open row that is scanned, fanned out and marked ends with status 1, exactly the members whose push got through newly registered, the others boxed or lost, every non-sender safe, and no other unmarked row changed |
| `DeliveryServes.ConsumeServes` | internal/message/delivery.go:126-288 | the same for an event consumed from the queue |
| `DeliveryServes.RedeliveryFansOut` | internal/message/compensation.go:112-131 | up to its mark a redelivery changes books and marks as the deliverer's fan-out of the rebuilt event does |
| `DeliveryServes.RowChanges` | internal/message/delivery.go:267-288 | a row of local_message changes exactly when an UPDATE with its mark takes effect, or when it is cleaned up once it has status 1 |
| `DeliveryServes.PanicAborts` | internal/message/delivery.go:112-120 | a panic ends the fan-out: nobody else is handled and nothing is marked |
| `DeliveryServes.AcknowledgeReaches` | internal/message/delivery.go:399-411 | an acknowledgement ends the waiting of exactly the keys of its user and conversation with seq at most ack_seq, and nothing else |
| `DeliveryServes.CrashForgets` | internal/message/delivery.go:343-356 | a crash takes the registry, the chains, the marks and the running fan-outs, and nothing that is stored |
| `DeliveryServes.UnackedIsBoxed` | internal/message/delivery.go:300-321 | in the protocol a key never acknowledged is pushed again three times, waits until the third, and is then in the offline box only |
| `DeliveryLoss.NobodyForgottenWithoutFaults` | internal/message/delivery.go:126-421 | while box writes succeed and the process stays up, after any run each committed message has status 0, or some complete fan-out of it has every non-sender pending with a live chain, acknowledged, boxed or about to be boxed |
| `DeliveryLoss.HandledIsCovered` | internal/message/delivery.go:161-175 | after its turn in the fan-out a recipient is covered if and only if the push or the box write worked or he was covered before |
| `DeliveryLoss.UncoveredIff` | internal/message/delivery.go:300-341 | a covered recipient stops being covered exactly in a crash, or in a failed box write, that takes away his only cover |
| `DeliveryLoss.LostIff` | internal/message/delivery.go:331-341 | over any run a key is in `lost` if and only if some step failed to box it, or crashed while it was pending or being boxed |
| `DeliveryLoss.UncoveredWasLost` | internal/message/delivery.go:126-421 | after any run whoever a fan-out has handled is covered, unless some step of the run lost him |
| `DeliverySafety.RetryChains` | internal/message/delivery.go:300-421 | in every reachable state a pending key has a chain of level 1 to 3 in flight, and a key is pushed again at most three times per registration |
| `DeliverySafety.QuietMeansServed` | internal/message/delivery.go:300-321 | once no timer is left, every recipient of a marked message has acknowledged, is in the box, or was lost |
| `DeliverySafety.AckSilences` | internal/message/delivery.go:300-411 | after an ack covering a key, and until a fan-out handles that recipient anew, the key is pushed again at most once for each callback that had passed its check when the ack came in |
| `DeliverySafety.LatePushesHappen` | internal/message/delivery.go:303-310 | in every state an ack can be followed by exactly that many pushes |
| `DeliveryImpl.PendingAcks.Register` | internal/message/delivery.go:367-379 | a new key is added with its closure and its timer started; a waiting one changes nothing |
| `DeliveryImpl.PendingAcks.Schedule` | internal/message/delivery.go:382-389 | the closure registered for a waiting key, none for another |
| `DeliveryImpl.PendingAcks.Alive` | internal/message/delivery.go:392-397 | true exactly for waiting keys |
| `DeliveryImpl.PendingAcks.Ack` | internal/message/delivery.go:399-411 | exactly the keys of this user and conversation with seq at most ackSeq stop waiting, and no empty bucket stays |
| `DeliveryImpl.PendingAcks.Remove` | internal/message/delivery.go:413-421 | exactly this key stops waiting |
| `DeliveryImpl.Prune` | internal/message/delivery.go:403-407 | the delete loop leaves exactly the seqs above ackSeq |
| `DeliveryImpl.FanOutServes` | internal/message/delivery.go:148-176 | however pushes and box writes turn out, after the loop every non-sender member is safe |
| `DeliveryImpl.FanOutKeys` | internal/message/delivery.go:148-176 | a fan-out registers, boxes and loses exactly the keys (uid, conv, max_seq) of the non-sender members, as their pushes and box writes turn out |
| `DeliveryImpl.DeliveredThenAcked` | internal/message/delivery.go:292-294 | after a delivery and an acknowledgement up to q a member whose push got through still waits if and only if q is below the event's max_seq |
| `DeliveryImpl.FanOutIsRun` | internal/message/delivery.go:148-176 | the loop is a run of the protocol's member steps |
| `DeliveryImpl.UnackedGoesToBox` | internal/message/delivery.go:300-321 | a key never acknowledged is pushed again exactly three times, stays registered until the third, and then moves to the offline box |
| `DeliveryImpl.Deliverer.Deliver` | internal/message/delivery.go:126-197 | the effect of the whole fan-out: each non-sender waits, is boxed or is lost under (uid, conv, max_seq); nothing on a failed lookup, and a mark (conv, msg_id) only for an event with a msg_id |
| `DeliveryImpl.Deliverer.AckPush` | internal/message/delivery.go:292-294 | an acknowledgement is the protocol's ack: exactly the keys of this user and conversation up to ack_seq stop waiting |
| `DeliveryImpl.Deliverer.OnTimer` | internal/message/delivery.go:302-319 | the timer callback, undisturbed, is the protocol's four retry steps |
| `DeliveryTasks.LocalMessages.DeleteSome` | internal/message/compensation.go:356-362 | at most `limit` delivered and expired rows go, and none is left if fewer went |
| `DeliveryTasks.LocalMessages.Cleanup` | internal/message/compensation.go:344-372 | the loop ends and removes exactly the rows with status 1 older than the cutoff; every row with status 0 stays |
| `DeliveryTasks.LocalMessages.ScanBatch` | internal/message/compensation.go:77-97 | open rows past the grace period, each at most once, all of them if they are fewer than 200 |
| `DeliveryTasks.LocalMessages.RedeliverOne` | internal/message/compensation.go:114-131 | the rebuilt event is fanned out, as the protocol's scan of the row does; a row without a message is marked done and delivers nothing; a failed query does nothing |
| `DeliveryTasks.CleanIsUnique` | internal/message/compensation.go:354-367 | what the cleanup leaves is determined: every open row stays |
| `SeqProtocol.Unique` | internal/seq/allocator.go:42-245 | over every interleaving of CAS takes, prefetches, swaps, concurrent `For` and outside raises, no number is in two issued ranges |
| `SeqProtocol.IssuedIffBelowCursor` | internal/seq/allocator.go:42-204 | the numbers issued from a segment are exactly those up to its cursor; each lies in one loaded segment and is at least 1 |
| `SeqProtocol.IssueIsFresh` | internal/seq/allocator.go:42-245 | whatever range a step issues shares nothing with any issued before |
| `SeqOrder.LaterIsLarger` | internal/seq/allocator.go:42-158 | over every interleaving, once a range is issued in a process, every call of that process that starts afterwards gets a range above it |
| `SeqOrder.StepOrder` | internal/seq/allocator.go:84-158 | in every step the current segment of an allocator only moves to later ones, the prefetched one lies behind it, and at most one thread of a process holds its lock |
| `SeqAlone.NextTakes` | internal/seq/allocator.go:42-53 | an undisturbed `Next` takes the next n numbers of the current segment, when they fit |
| `SeqAlone.NextSwaps` | internal/seq/allocator.go:143-148 | when they do not, the prefetched segment becomes current and gives the numbers |
| `SeqAlone.NextLoads` | internal/seq/allocator.go:149-158 | without a prefetched segment one step of the row is loaded, and its first numbers are given |
| `SeqAlone.NextFails` | internal/seq/allocator.go:149-156 | if that load fails the call fails and nothing has changed |
| `SeqAlone.PrefetchFills` | internal/seq/allocator.go:123-141 | an undisturbed prefetch loads one step of the row into the empty buffer |
| `SeqAlone.ForPublishes` | internal/seq/allocator.go:225-243 | `For` of a new key loads one step of the row and publishes an allocator on it |
| `SeqAlone.ThreadStarts` | internal/seq/allocator.go:225-231 | a new caller in a process starts idle |
| `SeqAlone.RowMoves` | internal/message/seq_client.go:230-238 | a raise lifts max_id to the given value and never lowers it |
| `SeqAllocator.NextIncreases` | internal/seq/allocator.go:84-120 | with calls that do not overlap the ranges increase strictly and `Peek` is the largest number issued |
| `SeqAllocator.NextFailsIff` | internal/seq/allocator.go:84-104 | `Next` refuses exactly non-positive and oversized requests, and fails otherwise only when the load does |
| `SeqAllocator.FirstNumbers` | internal/seq/allocator.go:69-82 | a new allocator hands out the numbers right above the row's |
| `SeqAllocator.Adjacent` | internal/seq/allocator.go:42-53 | while the segment lasts calls get adjacent ranges, and the database is not asked |
| `SeqAllocator.PrefetchTakesOneStep` | internal/seq/allocator.go:123-141 | a prefetch takes one step of the row for an empty buffer, and leaves the current segment alone |
| `SeqAllocator.PrefetchCarries` | internal/seq/allocator.go:123-148 | after a prefetch the next call succeeds without the database, where it would fail without the prefetch, and gets the prefetched segment's first numbers |
| `SeqAllocator.PrefetchThenNext` | internal/seq/allocator.go:123-148 | in a run: after a raise, a prefetch and an outage the next call gets the numbers right above the raise |
| `SeqAllocator.Row.TryLoad` | internal/seq/allocator.go:177-204 | a committed load raises max_id by the step and returns the segment ending there |
| `SeqAllocator.SegmentObj.Take` | internal/seq/allocator.go:42-53 | n numbers are taken if and only if they fit |
| `SeqAllocator.AllocatorObj.Next` | internal/seq/allocator.go:84-104 | the loop over take and swap equals `NextOf`, and a prefetch is started exactly when a successful call leaves less than a tenth of the step and the buffer is empty |
| `SeqAllocator.AllocatorObj.SwapSync` | internal/seq/allocator.go:143-158 | the buffered segment is used if there is one, else one is loaded |
| `SeqAllocator.AllocatorObj.Refill` | internal/seq/allocator.go:123-141 | on an empty buffer a committed load raises max_id by the step and leaves a full segment ending there; otherwise nothing changes |
| `Prefetch.MsgIdAlloc.Alloc` | internal/message/service.go:78-103 | the prefetcher equals its specification, the cur == 0 sentinel included |
| `Prefetch.ConvSeqAlloc.Alloc` | internal/message/service.go:116-150 | the loop with the wholesale map clear equals its specification |
| `Prefetch.OneAnswerServesMsg` | internal/message/service.go:86-103 | one answer serves 512 calls with consecutive numbers, whatever the service says meanwhile; the next call asks again |
| `Prefetch.OneAnswerServesConv` | internal/message/service.go:121-150 | one answer serves 64 calls for a conversation, and the others keep what they hold, unless the map had reached 4096 and was thrown away |
| `Prefetch.MapStaysSmall` | internal/message/service.go:121-150 | the map never holds more than 4096 conversations |
| `Prefetch.MsgHandsOut` | internal/message/service.go:88-103 | a call hands out the next number it holds, else the first of the answer, else nothing |
| `Prefetch.ConvHandsOut` | internal/message/service.go:121-150 | the same per conversation |
| `Prefetch.StepHandsOut` | internal/message/service.go:88-103 | a fresh answer reaches its caller, other callers' answers are on record, and a start of the process empties both prefetchers |
| `Prefetch.NeverTwice` | internal/message/service.go:78-150 | while the answers of the service are fresh, no msg_id and no (conversation, seq) is handed out twice, by any number of processes, across clears, restarts and lost answers; 0 never is |
| `Prefetch.EachProcessRises` | internal/message/service.go:78-150 | while each answer lies above the earlier ones for its key, each process's ids, and its seqs per conversation, strictly increase |
| `NumberStack.AnswerIsFresh` | internal/seq/allocator.go:42-204 | what the service answers to a call shares no number with any earlier answer: the condition of the prefetchers holds of itself |
| `NumberStack.AskMsgServed` | internal/message/service.go:88-103 | a range the service has issued and nobody has received reaches the process that asks, and its first number is handed out |
| `NumberStack.AskConvServed` | internal/message/service.go:121-150 | the same for the seqs of a conversation, in ranges of 64 |
| `NumberStack.OthersMove` | internal/message/service.go:60-73 | an access inside the service is one of its steps, and a process starts with empty prefetchers |
| `NumberStack.NeverTwiceEndToEnd` | internal/message/service.go:78-150 | prefetchers on concurrent allocators, end to end: no number is handed out twice, whatever races, raises of the rows, lost answers and restarts |
| `NumberOrder.RisesEndToEnd` | internal/message/service.go:78-150 | with one allocator per row and calls that do not overlap, end to end: each process's numbers for a key strictly increase, across restarts of processes and service |
| `NumberOrder.AskMsgServed` | internal/message/service.go:88-103 | a call whose answer arrives hands out the first of the row's next 512 numbers |
| `NumberOrder.AskConvServed` | internal/message/service.go:121-150 | the same for a conversation, with 64 numbers |
| `NumberOrder.ServiceMoves` | internal/seq/allocator.go:225-243 | an allocator is opened above everything its row has given, and other calls are steps of the allocator |
| `NumberOrder.TwoAllocatorsGoBack` | internal/seq/allocator.go:84-104 | with two allocators on one row a later call can return a smaller number |
| `Send.SendRefines` | internal/message/service.go:238-330 | one send is one write-once operation: at most its own row is added, none is changed, and a success returns that row |
| `Send.MarkersTrueIff` | internal/message/service.go:238-308 | after a send every marker equals a committed row if and only if the call did not leave an orphan |
| `Send.RepeatAnswersSame` | internal/message/service.go:291-296 | a send that finds its key committed changes no row and answers with that row or an error |
| `Send.FirstSendStores` | internal/message/service.go:238-330 | a first send without faults stores its own numbers, answers with them and leaves them in the marker |
| `Send.RepeatAnswers` | internal/message/service.go:229-296 | a repeat without faults answers with the stored row, whether its marker is there, has expired or expires meanwhile, and stores nothing |
| `Send.MarkerAnswers` | internal/message/service.go:229-233 | a marker that Bloom filter and Redis lead to is the answer; no number is allocated and nothing written |
| `Send.FoundMarkerAnswers` | internal/message/service.go:262-267 | a marker that SETNX finds and that can be read is the answer, and nothing is written |
| `Send.RefusedIff` | internal/message/service.go:218-236 | exactly non-members are refused as such, and a call that fails before its commit stores nothing |
| `Send.RunRefines` | internal/message/service.go:238-330 | over any run rows are never changed and every success returned the row its key has at the end |
| `Send.SuccessesAgree` | internal/message/service.go:238-330 | two successes for one key agree |
| `Send.OrphanMisleads` | internal/message/service.go:281-284 | after a failed BeginTx a repeat may be answered with a message that was never stored |
| `SendRace.OneRow` | internal/message/service.go:238-330 | over every interleaving of calls on one key at most one value is ever committed, and the row never changes |
| `SendRace.AnswersTrue` | internal/message/service.go:229-308 | a success from a call's own commit or from the table is the row for ever; one from a marker is a value some call put there |
| `SendRace.RacersAgree` | internal/message/service.go:247-308 | a success, whatever its source, agrees with one that did not come from a marker if and only if its value was committed |
| `SendRace.OverlapMisleads` | internal/message/service.go:229-296 | two overlapping calls and a third: one success from the marker of a call whose insert then fails, and another value stored |
| `SendRace.AloneIsSendOnce` | internal/message/service.go:218-330 | with nobody in between, the accesses of one call have the effect and the answer of `SendOnce` |
| `Send.Service.SendMessage` | internal/message/service.go:218-330 | the method's steps equal `SendOnce` |
| `Send.Service.IdemPut` | internal/cache/cache.go:65-75 | SETNX keeps an existing marker |
| `Send.Service.IdemDel` | internal/cache/cache.go:93-98 | the marker is gone if the delete takes effect |
| `Send.Service.Persist` | internal/message/service.go:275-308 | the transaction with its marker roll-backs equals `Insert` |
| `Batchers.StepKeeps` | internal/message/delivery.go:231-288 | every interleaved step of adders, timers and flushes keeps each added value buffered, in flight, written or failed, and a flush coming for a non-empty buffer |
| `Batchers.NothingStranded` | internal/message/seq_client.go:179-238 | in all three batchers, over every interleaving, a non-empty buffer has a flush coming, no added value is dropped, and the column only rises, to values that were added |
| `Batchers.QuiescentIsComplete` | internal/message/seq_client.go:179-238 | with successful writes and nothing pending the column is at or above every value added |
| `Batchers.FlightLimit` | internal/message/seq_client.go:212-224 | a flush up to the limit writes every row that leaves it; over the limit it writes exactly `limit` and puts every further row back |
| `Batchers.FinishedFlush` | internal/message/seq_client.go:212-228 | in every interleaving a finished flush has written all its rows, or exactly `limit` of them if it took more |
| `BatcherDrain.AddReaches` | internal/message/seq_client.go:179-198 | an added value is in the buffer at once, and a full buffer or the first value of a batch calls for one flush |
| `BatcherDrain.WriteLands` | internal/message/service.go:201-210 | a write that works takes exactly its row out of the flight and leaves the column at the greater value |
| `BatcherDrain.WriteFails` | internal/message/service.go:201-208 | a write that fails leaves the column alone, and its row is gone |
| `BatcherDrain.SyncFlush` | internal/message/seq_client.go:212-228 | a finished flush of the sync batcher has written all its rows, or 32 of them |
| `BatcherDrain.Drains` | internal/message/seq_client.go:203-228 | every reachable state of the three batchers can be drained: a continuation in which every write works leaves nothing owed, pending, in flight or buffered, and every added value in the column, unless a write of it had failed before |
| `BatcherImpl.LastSeqBatcher.AddSeq` | internal/message/service.go:170-192 | the locked region of `add` equals the protocol's |
| `BatcherImpl.LastSeqBatcher.TakeRows` | internal/message/service.go:195-200 | a flush takes the whole buffer and disarms it |
| `BatcherImpl.LastSeqBatcher.Flush` | internal/message/service.go:195-211 | the buffer is taken, and every conversation in it whose UPDATE works ends at the greater of its old last_seq and the buffered one |
| `BatcherImpl.MarkBatcher.AddMark` | internal/message/delivery.go:231-254 | `add` on one shard equals the protocol's and leaves the other shards alone |
| `BatcherImpl.MarkBatcher.TakeMarks` | internal/message/delivery.go:257-262 | a flush takes the whole buffer of its shard and disarms it |
| `BatcherImpl.MarkBatcher.Flush` | internal/message/delivery.go:257-288 | the one UPDATE sets exactly the marked rows with status 0 to 1, or nothing when it fails |
| `BatcherImpl.SyncBackfill.Backfill` | internal/message/seq_client.go:179-198 | `backfill` equals the protocol's add with a capacity of 64 |
| `BatcherImpl.SyncBackfill.WriteBack` | internal/message/seq_client.go:230-238 | the column takes the greater value, or stays when the write fails |
| `BatcherImpl.SyncBackfill.Flush` | internal/message/seq_client.go:203-228 | whatever others add meanwhile: at most 32 rows are written, a smaller batch completely; the column is raised to exactly those whose write works, the buffer holds exactly the rest and the added values, with a flush or timer started for it |
| `HashRing.SearchIsWalk` | internal/hashring/hashring.go:88-91 | splitting the sorted vnodes at the searched index gives the clockwise walk |
| `HashRing.OwnerIsNext` | internal/hashring/hashring.go:80-93 | in a sorted ring the owner of a hash is the node of the first vnode at or after it, else of the very first |
| `HashRing.FirstsInOrder` | internal/hashring/hashring.go:107-116 | the replicas come in the order in which the walk first meets them |
| `HashRing.RemoveMovesOnlyOwned` | internal/hashring/hashring.go:64-78 | removing a node changes the owner of exactly the keys it owned |
| `HashRing.AddMovesOnlyToNew` | internal/hashring/hashring.go:45-61 | adding a node moves keys only to it |
| `HashRing.AddThenRemove` | internal/hashring/hashring.go:45-78 | adding then removing a node restores the very same vnodes |
| `HashRing.StableIffClashFree` | internal/hashring/hashring.go:60 | the order of equal hashes alone moves no key if and only if no two nodes share a vnode hash |
| `HashRing.AddIff` | internal/hashring/hashring.go:45-78 | however the sort breaks ties, adding a node moves keys only to it, and removing it restores every owner, if and only if no two old nodes share a vnode hash |
| `HashRing.ReplicaList` | internal/hashring/hashring.go:96-117 | min(n, number of nodes) distinct nodes of the ring, starting with the owner |
| `HashRing.ReplicasAfterRemove` | internal/hashring/hashring.go:64-117 | after a removal the list is the old one for n + 1 with the node dropped, cut to n |
| `HashRing.CountPermutes` | internal/hashring/hashring.go:60 | sorting changes no node's number of vnodes |
| `HashRingImpl.Ring.constructor` | internal/hashring/hashring.go:34-42 | a non-positive base stands for 100 vnodes per node |
| `HashRingImpl.ItoaIsDecimal` | internal/hashring/hashring.go:56 | the index in a vnode's label is written in decimal, without leading zeros |
| `HashRingImpl.DecimalUnique` | internal/hashring/hashring.go:56 | a number has one decimal, so the labels are determined |
| `HashRingImpl.LabelsDistinct` | internal/hashring/hashring.go:55-58 | the labels of a node's vnodes are all different |
| `HashRingImpl.Ring.Add` | internal/hashring/hashring.go:45-61 | the ring stays sorted with vnodesPerNode times weight vnodes per node, the new ones exactly at the hashes of node, # and each decimal below that count; a known node changes nothing |
| `HashRingImpl.Ring.Remove` | internal/hashring/hashring.go:64-78 | exactly the node's vnodes go |
| `HashRingImpl.Ring.Get` | internal/hashring/hashring.go:81-93 | the first vnode of the clockwise walk, none on an empty ring |
| `HashRingImpl.Ring.GetN` | internal/hashring/hashring.go:96-117 | the first n nodes of the walk in order of appearance |
| `HashRingImpl.Collect` | internal/hashring/hashring.go:107-116 | the loop round the ring collects exactly the first n nodes of the walk |
| `HashRingImpl.Filter` | internal/hashring/hashring.go:71-77 | the filtering loop drops exactly the node's vnodes, in order |
| `Frame.RoundTrip` | internal/comet/protocol.go:53-117 | an encodable frame is read back exactly and only its own bytes are consumed |
| `Frame.Truncated` | internal/comet/protocol.go:85-102 | a frame of which anything is missing is an error and nothing is consumed |
| `Frame.HeaderCmdIgnored` | internal/comet/protocol.go:112-115 | the command bytes of the header never change what is read |
| `Frame.WireBytes` | internal/comet/protocol.go:64-70 | byte by byte: the body's length big-endian, version 1, flag 0, the command's low 16 bits big-endian, the body |
| `Frame.EncodeFailsIff` | internal/comet/protocol.go:53-62 | exactly which frames are refused and why; the limit is 65536 bytes of body |
| `Frame.HeaderRefused` | internal/comet/protocol.go:90-98 | a header is refused for its version first, then its flag, then a length above 65536 |
| `Frame.ParsesIff` | internal/comet/protocol.go:84-117 | exactly when a frame is read, and what stays on the stream |
| `Frame.StreamRoundTrip` | internal/comet/protocol.go:82-117 | any list of encodable frames comes back in order, whatever follows them |
| `Frame.StreamCut` | internal/comet/protocol.go:82-117 | a stream cut inside a frame delivers exactly the whole frames before it |
| `FrameStream.Conn.ReadAtLeast` | internal/comet/stream_windows.go:32-34 | the bytes read are the next ones, at least `min` unless the connection is exhausted |
| `FrameStream.NetStream.Peek` | internal/comet/stream_windows.go:28-40 | the next n bytes if the stream still has n, in whatever pieces they arrive; buffered plus unread bytes do not change |
| `FrameStream.NetStream.Skip` | internal/comet/stream_windows.go:42-48 | n buffered bytes are consumed, or nothing |
| `FrameStream.EncodeFrame` | internal/comet/protocol.go:53-71 | the buffer filled by index is the wire form, with each error in its case |
| `FrameStream.ReadFrame` | internal/comet/protocol.go:84-117 | reading depends only on the concatenation of the pieces and equals `Parse` |
| `FrameStream.Pump` | internal/comet/server.go:73-91 | the read loop yields exactly the frames up to the first error |
| `FrameStream.ReceiveAll` | internal/comet/server.go:73-91 | any list of encodable frames and any tail, cut into any pieces: the read loop yields exactly those frames first |
| `Bloom.AnswersExactly` | internal/cache/bloom.go:84-106 | a key tests positive if and only if its bits are set by keys added since the last completed rebuild began or loaded by it; such a key itself always does |
| `Bloom.PositionIs` | internal/cache/bloom.go:72-76 | position i of a key is h1 + i * h2, less whole multiples of 2^64, less whole multiples of the bitmap size |
| `Bloom.RebuildForgetsNothingNew` | internal/cache/bloom.go:95-127 | a key added during a completed rebuild, or loaded by it, tests positive until the next one completes |
| `Bloom.FailedLoaderLosesNothing` | internal/cache/bloom.go:113-120 | a rebuild whose loader fails leaves the filter the adds alone would have left |
| `BloomImpl.SetBit` | internal/cache/bloom.go:78-82 | or-ing one mask into a word sets that bit and no other |
| `BloomImpl.BloomGen.Add` | internal/cache/bloom.go:78-82 | the loop sets exactly the given positions |
| `BloomImpl.BloomGen.MightContain` | internal/cache/bloom.go:84-91 | true if and only if all positions are set |
| `BloomImpl.Filter.constructor` | internal/cache/bloom.go:38-48 | zero size or count stands for the default |
| `BloomImpl.Filter.Add` | internal/cache/bloom.go:95-102 | both generations get the key while a rebuild runs |
| `BloomImpl.Filter.MightContain` | internal/cache/bloom.go:104-106 | the answer of the current generation |
| `BloomImpl.Filter.BeginRebuild` | internal/cache/bloom.go:113-115 | an empty shadow generation is hung in |
| `BloomImpl.Filter.LoadKey` | internal/cache/bloom.go:121-123 | a loaded key goes to the shadow only |
| `BloomImpl.Filter.FinishRebuild` | internal/cache/bloom.go:116-127 | the shadow replaces the current generation, or is dropped when the loader failed |
| `Watermark.WatermarkIsLongestRun` | cmd/yim-bench/main.go:518-555 | after any arrivals the watermark is the end of the longest run from the first arrival, and the stash is exactly what arrived above it |
| `Watermark.OrderDoesNotMatter` | cmd/yim-bench/main.go:518-555 | after the first arrival neither order nor repetition changes the result |
| `Watermark.AckCancelsUnseenIffBelowFirst` | cmd/yim-bench/main.go:518-555 | acknowledging the watermark cancels in the pending registry a push that was not received if and only if it is below the first arrival |
| `Watermark.FillHoles` | cmd/yim-bench/main.go:533-539 | the hole-filling loop equals its specification |
| `Watermark.AckBatcher.ObservePush` | cmd/yim-bench/main.go:518-555 | one arrival changes its own conversation as specified and marks it dirty exactly when a later watermark is to be sent |
| `Watermark.AckBatcher.SendWatermark` | cmd/yim-bench/main.go:558-565 | the seeding frame carries the current watermark, 0 for a conversation not seen |
| `Watermark.AckBatcher.FlushAll` | cmd/yim-bench/main.go:568-585 | one frame per dirty conversation with its watermark; afterwards every acknowledgement sent is up to date |

## Left out

- TimeWheelImpl.Timer.Insert: `After` and `advance` are atomic; the source unlocks a level before it locks the next (internal/timewheel/wheel.go:132-133).
- TimeWheelRoot.RootTimely: assumes accepted ticks in consecutive root ticks, because `advance` sweeps only the slot of `now`; a driver that skips ticks skips slots.
- TimeWheelPunctual.OnTimeIff: assumes a driver that moves by exactly one tick, a start at or after instant 0, and an expire time given once.
- TimeWheelPunctual.OnTimeStartsAt: for expire % tick below the phase it leaves the due sweep or the one before open; `TimeWheelExact.StartsExactlyAt` says which.
- TimeWheelExact.StartsExactlyAt: the same driver; its premise that no root entry is ahead by more than a turn is one that `StartsExactlyFromStart` derives.
- int64 overflow of very large spans, the fired counter (which counts root drains only), `Stop`, and real clocks.
- DeliverySafety.NobodyForgotten: counts a recorded loss as remembered (`DeliveryLoss` says exactly when there is one); one delivering process with one registry; with several, an ack may reach another instance, which only delays the box. Status values other than 0 and 1 are not written by this code.
- DeliverySafety.NothingLost: keys that a crash or a failed box write loses are recorded in `lost`; nothing recovers them here.
- Delivery.HandleFollows: the push to a member and its registration are one step; an ack that arrives between them is one before the step, as in the source, where it finds nothing to cancel.
- DeliveryImpl.PendingAcks.Ack: the inner map is written back after the deletions instead of being shared; each method is one locked region.
- DeliverySafety.StepKeeps: the scan's grace period and batch limit and the cleanup's cutoff are any choice of rows in the protocol; `DeliveryTasks` has them.
- DeliveryTasks.LocalMessages.RedeliverOne: the loop of `Exec` over a batch, its logging and its query errors are not modelled; each row is one step of the protocol.
- The clean-up of the offline box, the reconcile tasks, the sync-seq bump inside the fan-out, routing and the comet push: a push is an outcome.
- BatcherImpl.SyncBackfill.Flush: no second flush runs at the same time; `Batchers` has that.
- SeqProtocol.Unique: a prefetch may start at any time, not only below the low-water mark; retries inside `loadSegment` are separate loads. `last` is left to the serialised model, because its store is not a maximum.
- SeqAllocator.SegmentObj.Take: the compare-and-swap loop is straight-line there, since calls do not overlap; `SeqProtocol` has the races.
- Prefetch.NeverTwice: an answer that is not fresh counts as an error; `NumberStack.AnswerIsFresh` shows that there is none.
- Prefetch.EachProcessRises: assumes rising answers, which calls that do not overlap give with one allocator on the row (`NumberOrder.RisesEndToEnd`).
- NumberOrder.RisesEndToEnd: a call and its answer are one step, and calls do not overlap; `SeqOrder.LaterIsLarger` has the races inside one process.
- Send.RunRefines: sends on one key do not overlap (`SendRace` lets them) and no call leaves an orphan; a clash on another key of the message table counts as a failed insert.
- Batchers.NothingStranded: a crash loses the buffer, and is excluded.
- The sync watermark script and its floor cache (internal/message/seq_client.go:144-163), which can hold a stale floor.
- HashRing.AddMovesOnlyToNew: assumes no two old nodes share a vnode hash; `AddIff` shows that this is needed.
- HashRingImpl.Ring.Remove: the source filters into the storage of the old slice; here the slice is a value.
- HashRingImpl.Sort: stands for sort.Slice; only its result is specified. The 64-bit FNV hash is any function.
- Frame.RoundTrip: the body codec is a parameter; decoding is assumed to undo encoding, and an empty body to be the empty frame.
- FrameStream.NetStream.Peek: the standard-library stream is modelled, not the netpoll one; which read error occurred is not told apart, and the bytes returned are a value, not a view valid until the next read.
- BloomImpl.Filter.Add: `Add` is atomic and rebuilds do not overlap; the source reads the two generation pointers one after the other. Bitmap sizes for which size + 63 wraps at 64 bits are excluded by unbounded arithmetic.
- SendRace.OneRow: a transaction is one step; markers may expire at any time, other keys are left out.
- Watermark.AckBatcher.FlushAll: the frames are sent as one step with the snapshot.
- Generated code, wiring, configuration, tracing, relations, search, presence, file upload and authentication: no property of this kind.
