# Verified models of the flash-sale system

This project models the parts of the repository whose correctness cannot be read off one method, and
proves them in Dafny 4.11. `dafny verify dfyconfig.toml` checks everything.

## The order pipeline

A purchase is accepted by one Redis script that takes a unit of stock, marks the buyer, writes a member
of the handoff set and a receipt. A relay moves handoff members into the outbox table of MySQL, another
relay sends outbox rows to Kafka, a consumer turns messages into order rows and completes the outbox
rows. Everything may stop, be repeated or overlap.

- `Pipeline` is the whole of it as one state machine: Redis, MySQL, Kafka as a set of messages that may be
  received any number of times, any number of handoff relays between any two of their calls, recovery,
  cancellations and stock adjustments with others between their change to Redis and the end of their
  transaction, and reconciliation. `PipelineInvariant` proves the invariant step by step,
  `PipelineTheorems` says what follows for every run, `OrderStatus` what customers are told about their
  orders, `PipelineProgress` what can still happen in every state, `PipelineRuns` gives the runs that end badly.
- `MemberCodec` and `Decimals` are the text form of handoff members, so that the records of `Pipeline` and
  the strings of `HandoffRelay` are the same thing.
- `OutboxRows` is one outbox row as an automaton over the update statements; `OutboxTable` the table with its
  two unique keys and its row ids; `OutboxBatchWriter` the transaction that writes a batch.
- `HandoffRelay` is the handoff relay with its bisection, against processing purchases one at a time. Every
  call may fail before or after it takes effect.
- `OutboxRelay` is the relay to Kafka among others who change the table meanwhile, `AcceptedOrderRecovery`
  dead letters and manual review, with anything between the read and the update of a retry.
- `OrderPersistence` creates batches of orders, against creating them one by one; `OrderConsumer` is the
  consumer's transaction; `EffectivelyOnce` proves that redelivery does not matter.
- `Reconciliation` rebuilds stock and buyers in Redis. `StockCompensation` covers cancellation and stock
  adjustment with everything that can go wrong between the two stores.

## The rest

- `IdSegments`: the segment allocator and the double-buffered generators as a machine of instances and threads.
- `ShopCache`: both cache levels, updates, invalidation events and readers under the read/write lock;
  `ShopCacheService` is one query through both levels.
- `VueChildDiff` (over `DomChildren`), `VueScheduler`, `VueDeps`: the keyed child diff, the watcher queue, and
  the dependency lists with the stack of targets, of the vendored Vue runtime (2.5.16).

## What the proofs found

- A batch of orders is not always created as its orders one by one: when one order of a voucher is
  redelivered, the newest-order check is applied to all orders of that voucher in the batch, so an order
  whose buyer has a newer active one makes the whole batch fail. `OrderPersistence.MixedBatchIsRejected`
  is such a batch, `OrderPersistence.GroupedAgainstEach` the exact condition. In states of the pipeline a
  buyer has one active order for a voucher with which nothing went wrong, and the two agree.
- A row under review whose order has been written stays under review whatever happens, if and only if no
  retry is under way that read the order as missing (`AcceptedOrderRecovery.ReviewOfWrittenOrderStays`):
  completing requires PENDING or SENT, and recovery queues a row again only if it read the order as missing.
  `PipelineRuns.WrittenUnderReview` is a run that gets there,
  `AcceptedOrderRecovery.ReviewedRowIsCompletedAfterAll` the race that gets out.
- The rollback of a cancellation does not restore the stocks exactly when no unit is left for the script to
  take back, or when its reply was lost (`StockCompensation.VoucherOrderService.CancelVoucherOrder`).
  `StockCompensation.ResoldUnitIsNotRestored` is such a cancellation: the order is live and its buyer is
  not marked any more.
- Taking back an increase has no floor, so the stock of Redis can end below zero;
  `StockCompensation.VoucherService.UpdateSeckillVoucherStock` says exactly when.
- Redis frees the buyer's mark before the cancellation commits. A buyer who buys again in between and whose
  cancellation is then rolled back has two live orders (`PipelineRuns.TwoLiveOrders`).
  `PipelineTheorems.HistoryIsExact` says which steps let that happen, and `PipelineTheorems.OneLiveOrder` that
  nothing else does. The table of orders has had no unique key on user and voucher since migration V4, so
  this rests on the scripts alone.
- Reconciling a voucher while a cancellation or adjustment of it is open overwrites what Redis was given
  ahead of MySQL, and the stocks differ after the commit (`PipelineRuns.ReconciledWhileCancelling`);
  `PipelineTheorems.ReconciliationChangesNothing` is the exact condition.
- Orders issued automatically get no receipt, so their status is unknown until the relay has written the
  outbox row (`OrderStatus.BuyerIsAnswered`, and `PipelineRuns.UnknownToItsBuyer` for a run).
- The child diff looks keys up in a plain object, which answers to the names of Object.prototype, too: a new
  child with such a key and no old one of that key makes the update throw
  (`VueChildDiff.InheritedKeyTrips`), and the key `__proto__` does even if an old child has it
  (`VueChildDiff.ProtoKeyTrips`). `VueChildDiff.UpdateChildren` says exactly when, and that it never happens
  without such keys.
- Hooks and data functions suspend the collection of deps by a target that is not pushed when there is none
  to push. If a computed property is evaluated, or another hook runs, inside them, targets are taken off too
  early and the watcher around them misses what it touches afterwards (`VueDeps.ChangesAreMissed`);
  `VueDeps.TargetsReturn` and `VueDeps.LastTouchIsNoted` are the exact conditions.

## Model

| member | source | states |
|---|---|---|
| PipelineTheorems.StockIsConserved | src/main/java/com/hmdp/service/impl/VoucherOrderPersistenceServiceImpl.java:45-62 | after every run, for every voucher that never came adrift, MySQL stock minus Redis stock is the number of accepted orders without an order row, less what open or rolled back cancellations and adjustments have put into Redis ahead of MySQL (nothing when none is under way), and Redis stock is not negative |
| PipelineTheorems.HistoryIsExact | src/main/java/com/hmdp/service/impl/VoucherOrderServiceImpl.java:238-256 | from every state with the invariant a step sets a voucher adrift exactly if it breaks the conservation of its stocks, and lists a buyer as doubled exactly if he ends up with two settled live orders or with one and no mark |
| PipelineTheorems.NothingIsLost | src/main/java/com/hmdp/kafka/outbox/SeckillOrderHandoffRelay.java:126-181 | after every run each accepted order is in the handoff set or has an outbox row with its own identity; the quarantine is empty |
| PipelineTheorems.AcceptedForGood | src/main/java/com/hmdp/kafka/outbox/SeckillOrderHandoffRelay.java:150-174 | an order accepted at one moment is, at every later moment of the run, still in the handoff set or the outbox under the same buyer and voucher |
| PipelineTheorems.RunIsLater | src/main/java/com/hmdp/mapper/SeckillOrderOutboxMapper.java:67-198 | between any two moments of a run no outbox row, row id, identity, order, buyer or message is lost or rewritten, completed rows do not change and cancelled orders stay cancelled |
| PipelineTheorems.OneLiveOrder | src/main/resources/seckill.lua:64-86 | two live orders of one buyer for one voucher are the same or one of them is being cancelled, unless a step left the buyer doubled; cancellations are begun, committed, rolled back and compensated in separate steps |
| PipelineTheorems.CompletedIsPersisted | src/main/java/com/hmdp/service/SeckillOrderConsumerService.java:58-69 | a COMPLETED row has its order row, an order row has its outbox row and the buyer and voucher of the purchase, and every row is consistent in owner, lease, status and completion time |
| PipelineTheorems.ConsumptionFailsOnlyOverCancelled | src/main/java/com/hmdp/service/impl/VoucherOrderPersistenceServiceImpl.java:45-90 | in every reachable state any batch of messages ever sent, for vouchers with nothing under way and nothing gone wrong, is consumed if and only if it holds no cancelled order, and never fails over database stock |
| PipelineTheorems.ReconciliationChangesNothing | src/main/java/com/hmdp/service/SeckillOrderReconciliationService.java:118-147 | in every reachable state, for a voucher not adrift, the stock to be written is the stock Redis has if and only if transactions have put none ahead or none is left; the rebuilt buyers include every live buyer, and no others if and only if every handoff member belongs to a live buyer |
| OrderStatus.BuyerIsAnswered | src/main/java/com/hmdp/service/impl/VoucherOrderServiceImpl.java:153-195 | the status query fails to find an order exactly if it was not accepted, belongs to someone else, or was issued automatically and is not in the outbox yet |
| OrderStatus.EachAnswerExactly | src/main/java/com/hmdp/service/impl/VoucherOrderServiceImpl.java:158-190 | the buyer of an accepted order is told success exactly if a batch with it was consumed and no cancellation of it committed, cancelled exactly if one committed, review exactly if it was not consumed and its row is under review, and processing in the remaining cases that are found |
| OrderStatus.OrdersAreWhatHappened | src/main/java/com/hmdp/service/SeckillOrderConsumerService.java:58-71 | after every run an order is written exactly if a batch with its message was consumed, and cancelled exactly if a cancellation of it was committed |
| OrderStatus.AnswersAdvance | src/main/java/com/hmdp/service/impl/VoucherOrderServiceImpl.java:153-195 | over later moments cancelled stays cancelled, success becomes cancelled at most, and an order once found is found for good |
| PipelineProgress.SellsOut | src/main/resources/seckill.lua:58-90 | a voucher with n units sells to the first n of any number of new buyers and to no other, and its stock ends at what is left of it |
| PipelineProgress.AcceptedCanBeWritten | src/main/java/com/hmdp/kafka/outbox/SeckillOrderHandoffRelay.java:126-181 | from every reachable state an accepted order of a voucher with nothing under way and nothing gone wrong is written or some further steps write it |
| PipelineProgress.RowCanBeWritten | src/main/java/com/hmdp/mapper/SeckillOrderOutboxMapper.java:84-101 | so can the order of an outbox row be written, whatever the row's status, owner and lease |
| PipelineProgress.AcceptedCanBeCleared | src/main/resources/lua/seckill_handoff_complete.lua:19-23 | a handoff member can be stored and cleared away with its receipt, from every reachable state |
| PipelineProgress.RelaysCanStop | src/main/java/com/hmdp/kafka/outbox/SeckillOrderHandoffRelay.java:126-181 | relays can stop at any point, and nothing of the rest of the system changes by that |
| PipelineProgress.CancellationBeginsExactly | src/main/java/com/hmdp/service/impl/VoucherOrderServiceImpl.java:214-236 | a buyer can begin to cancel an order in the pipeline exactly when the service gets as far as Redis with it and no transaction holds the voucher's stock |
| PipelineProgress.AdjustmentBeginsExactly | src/main/java/com/hmdp/service/impl/VoucherServiceImpl.java:183-208 | and an adjustment exactly when the service gets as far as Redis, Redis would not fall below zero, and no transaction holds the stock |
| PipelineProgress.TransactionsCanEnd | src/main/java/com/hmdp/service/impl/VoucherOrderServiceImpl.java:238-256 | an open transaction can commit and can roll back, one that was rolled back can be compensated, and no other can |
| PipelineProgress.OpenTransactionIsAlone | src/main/java/com/hmdp/service/impl/VoucherOrderServiceImpl.java:215-236 | after any run, no step but its own end changes the stock row an open transaction has updated or the order it is cancelling |
| PipelineInvariant.RunKeeps | src/main/java/com/hmdp/kafka/outbox/SeckillOrderHandoffRelay.java:126-181 | the invariant of traces, relays, nothing lost, transactions, exclusive purchases and conserved stock holds after every run from a state that has it |
| PipelineInvariant.InsertSucceeds | src/main/java/com/hmdp/kafka/outbox/SeckillOrderHandoffRelay.java:155-168 | the insert of a handoff batch never conflicts in a reachable state, so the branch to quarantine is never taken |
| PipelineInvariant.AcceptKeeps | src/main/resources/seckill.lua:58-90 | accepting a purchase keeps the invariant |
| PipelineInvariant.CompleteKeeps | src/main/resources/lua/seckill_handoff_complete.lua:19-22 | removing the members and receipts of an inserted batch keeps the invariant, although other relays may hold the same members |
| PipelineInvariant.ConsumeKeeps | src/main/java/com/hmdp/service/SeckillOrderConsumerService.java:34-71 | a consumed batch keeps the invariant, cancellations and adjustments of its vouchers being under way or not |
| PipelineInvariant.BeginCancelKeeps | src/main/java/com/hmdp/service/impl/VoucherOrderServiceImpl.java:214-236 | the script of a cancellation, before its transaction ends, keeps the invariant |
| PipelineInvariant.CommitKeeps | src/main/java/com/hmdp/service/impl/VoucherOrderServiceImpl.java:243-246 | the commit of a cancellation or adjustment keeps the invariant |
| PipelineInvariant.CompensateKeeps | src/main/java/com/hmdp/service/impl/VoucherOrderServiceImpl.java:247-254 | taking a rolled back cancellation or adjustment back in Redis keeps the invariant, with the voucher adrift or the buyer doubled exactly where it says so |
| PipelineInvariant.BeginAdjustKeeps | src/main/java/com/hmdp/service/impl/VoucherServiceImpl.java:193-208 | the increment of an adjustment, before its transaction ends, keeps the invariant |
| PipelineInvariant.PipelineIsReady | src/main/java/com/hmdp/service/impl/VoucherOrderPersistenceServiceImpl.java:45-62 | the pipeline's invariant gives the consumer what it relies on for calm vouchers: at most one live order a buyer and stock for all that waits |
| PipelineInvariant.ReconcileFindsStock | src/main/java/com/hmdp/service/SeckillOrderReconciliationService.java:136-137 | for a voucher not adrift the expected stock is the stock Redis has without what transactions have put there ahead of MySQL, and not less than nothing |
| PipelineInvariant.ReconcileMarksOnlyBuyers | src/main/java/com/hmdp/service/SeckillOrderReconciliationService.java:190-212 | the rebuilt buyers are live buyers exactly if all handoff members are; a member that is not belongs to a cancelled order |
| PipelineInvariant.ReconcileMarksExactly | src/main/java/com/hmdp/service/SeckillOrderReconciliationService.java:118-147 | after reconciliation exactly the live buyers of the voucher are marked for it, if every handoff member is of one, and the marks of other vouchers are as before |
| PipelineRuns.TwoLiveOrders | src/main/java/com/hmdp/service/impl/VoucherOrderServiceImpl.java:238-256 | a concrete run: buyer cancels, buys again before the commit, the transaction rolls back; two live orders remain and nothing is under way |
| PipelineRuns.ReconciledWhileCancelling | src/main/java/com/hmdp/service/SeckillOrderReconciliationService.java:118-147 | a concrete run: a voucher is reconciled while a cancellation is open; after the commit one unit in MySQL is not for sale in Redis although nothing is outstanding |
| PipelineRuns.WrittenUnderReview | src/main/java/com/hmdp/kafka/SeckillOrderKafkaConsumer.java:60-78 | a concrete run: a row is put under review while its message is in Kafka; the order is written and the row stays under review |
| PipelineRuns.UnknownToItsBuyer | src/main/java/com/hmdp/service/impl/VoucherOrderServiceImpl.java:153-195 | a concrete run: an order issued automatically whose buyer is told that there is no such order |
| HandoffRelay.SeckillOrderHandoffRelay.PersistWithIsolation | src/main/java/com/hmdp/kafka/outbox/SeckillOrderHandoffRelay.java:150-174 | without a failed call the bisection ends where processing each purchase alone in order ends; after a failed call a prefix is done with and going on one by one still leads there; at most 2n-1 insert attempts, one if nothing conflicts |
| HandoffRelay.BatchIsOneByOne | src/main/java/com/hmdp/kafka/outbox/SeckillOrderHandoffRelay.java:155-157 | a batch that commits does exactly what its purchases would do one after the other |
| HandoffRelay.OneExactly | src/main/java/com/hmdp/kafka/outbox/SeckillOrderHandoffRelay.java:150-174 | one purchase is stored and its member and receipt cleared away if it fits what is stored; otherwise its member is quarantined, if it is still queued, and its receipt stays |
| HandoffRelay.OneByOneRight | src/main/java/com/hmdp/kafka/outbox/SeckillOrderHandoffRelay.java:158-173 | one-by-one processing removes exactly the batch's members, each of them stored or quarantined, and loses nothing |
| HandoffRelay.TimesDoNotMatter | src/main/java/com/hmdp/kafka/outbox/SeckillOrderHandoffRelay.java:134-145 | starting over with later timestamps stores the same identities and leaves the same queue, receipts and quarantine |
| HandoffRelay.MalformedFirst | src/main/java/com/hmdp/kafka/outbox/SeckillOrderHandoffRelay.java:136-145 | sorting out malformed members first equals handling each member in the order of the queue |
| HandoffRelay.SeckillOrderHandoffRelay.SortOut | src/main/java/com/hmdp/kafka/outbox/SeckillOrderHandoffRelay.java:134-144 | malformed members are quarantined and the others are parsed, in order and paired with their members |
| HandoffRelay.SeckillOrderHandoffRelay.RelayVoucher | src/main/java/com/hmdp/kafka/outbox/SeckillOrderHandoffRelay.java:128-146 | one voucher's turn equals handling its first members one by one in order; whatever fails, each member stays in the queue, is stored or is quarantined |
| HandoffRelay.SeckillOrderHandoffRelay.RelayOneRound | src/main/java/com/hmdp/kafka/outbox/SeckillOrderHandoffRelay.java:126-148 | a round loses no member of any queue and, without a failed call, works off the beginning of every listed voucher's queue |
| HandoffRelay.Redis.CompleteBatch | src/main/java/com/hmdp/service/SeckillOrderHandoffService.java:61-80 | exactly the paired members and receipts go; too few members are an error without effect |
| HandoffRelay.Redis.Quarantine | src/main/resources/lua/seckill_handoff_quarantine.lua:1-11 | assumed effect of the script: a member moves to quarantine if it is still queued, otherwise nothing happens |
| MemberCodec.RoundTrip | src/main/java/com/hmdp/service/SeckillOrderHandoffService.java:91-106 | parsing a built member gives back order, user and flag for all longs and both flags |
| MemberCodec.BuildInjective | src/main/java/com/hmdp/service/SeckillOrderHandoffService.java:33-35 | different purchases have different members |
| MemberCodec.RebuildExactly | src/main/java/com/hmdp/service/SeckillOrderHandoffService.java:91-106 | rebuilding a parsed member gives the same text if and only if the member was canonical |
| MemberCodec.ReadsOrderFirst | src/main/resources/seckill.lua:85 | a member that is written as order, buyer and flag between bars is read as that order, that buyer and that flag, for all longs and both flags |
| MemberCodec.ParsesExactly | src/main/java/com/hmdp/service/SeckillOrderHandoffService.java:91-106 | a text is accepted as a member if and only if it has exactly three parts between bars, the first two of them numbers |
| MemberCodec.ReadsOrderTen | src/main/resources/seckill.lua:85 | the literal member of order 10 of user 1 is read as such, with either flag, and texts that are no three parts of numbers are malformed |
| Decimals.RendersAsWritten | src/main/java/com/hmdp/service/SeckillOrderHandoffService.java:100-102 | literal numbers with signs and leading zeros, most significant digit first, and texts that are none |
| Decimals.ReadOfRender | src/main/java/com/hmdp/service/SeckillOrderHandoffService.java:100-102 | reading a rendered long gives the long back |
| Decimals.RenderInjective | src/main/java/com/hmdp/service/SeckillOrderHandoffService.java:33-35 | different integers have different renderings |
| OutboxRows.RunKeepsRow | src/main/java/com/hmdp/mapper/SeckillOrderOutboxMapper.java:67-198 | any sequence of updates keeps a row's identity and its consistency: an owner has a lease and the row is PENDING or SENT, completion time exactly on COMPLETED |
| OutboxRows.CompletedIsFinal | src/main/java/com/hmdp/mapper/SeckillOrderOutboxMapper.java:137-198 | no update changes a COMPLETED row |
| OutboxRows.CompletesOnce | src/main/java/com/hmdp/mapper/SeckillOrderOutboxMapper.java:161-169 | a row in flight that is completed keeps the time of that completion, and no error and no owner, whatever happens afterwards |
| OutboxRows.StaleRelayIsFenced | src/main/java/com/hmdp/mapper/SeckillOrderOutboxMapper.java:114-135 | a relay that has lost a row does not change it any more, whatever happened in between, unless it claims the row again |
| OutboxRows.ClaimIsLost | src/main/java/com/hmdp/mapper/SeckillOrderOutboxMapper.java:84-101 | a claim of another relay, a requeue, a review and a completion each take the row from its relay |
| OutboxRows.LeaseExcludesOthers | src/main/java/com/hmdp/mapper/SeckillOrderOutboxMapper.java:92-101 | while the lease lasts nothing other relays do changes the row |
| OutboxRows.ReviewEndsOnlyByRequeue | src/main/java/com/hmdp/mapper/SeckillOrderOutboxMapper.java:187-198 | a row under review leaves that status by a requeue only |
| OutboxRows.ReviewAndRequeue | src/main/java/com/hmdp/mapper/SeckillOrderOutboxMapper.java:187-198 | any row that is not completed can be put under review, which takes it out of the queue and from its relay, and be queued again from there with one retry more |
| OutboxTable.FirstStoredAlone | src/main/resources/db/migration/V5__create_seckill_order_outbox.sql:17-18 | if a batch ends up stored, its first event is stored as soon as it is inserted alone, under the unique keys on event id and order id |
| OutboxTable.InsertAllRight | src/main/java/com/hmdp/mapper/SeckillOrderOutboxMapper.java:23-33 | an insert-ignore keeps row ids unique and stable and stores the same rows whatever ids are used up |
| OutboxTable.EventIdsStayUnique | src/main/resources/db/migration/V5__create_seckill_order_outbox.sql:17-18 | no two rows share an event id after any insert, if none did before |
| OutboxTable.RefusedOnlyForDuplicates | src/main/resources/db/migration/V5__create_seckill_order_outbox.sql:17-18 | an event whose order id and event id are new is stored with its identity |
| OutboxTable.OutboxMapper.InsertIgnoreBatch | src/main/java/com/hmdp/mapper/SeckillOrderOutboxMapper.java:23-33 | the rows and the count of the insert-ignore |
| OutboxTable.OutboxMapper.UpdateByIds | src/main/java/com/hmdp/mapper/SeckillOrderOutboxMapper.java:161-169 | assumed effect of the statement: an update by row id changes exactly the matching rows by its guard and effect |
| OutboxBatchWriter.SeckillOrderOutboxBatchWriter.InsertCommitted | src/main/java/com/hmdp/service/SeckillOrderOutboxBatchWriter.java:25-65 | both paths agree with one specification: it returns exactly if every requested event has a stored row of equal identity; otherwise the table is unchanged |
| OutboxBatchWriter.CommitAgain | src/main/java/com/hmdp/service/SeckillOrderOutboxBatchWriter.java:25-65 | writing the same batch again succeeds, inserts nothing and changes nothing |
| OutboxBatchWriter.CommitStores | src/main/java/com/hmdp/service/SeckillOrderOutboxBatchWriter.java:40-64 | a committed batch leaves other rows alone and stores each event's identity |
| OutboxBatchWriter.CommitsExactly | src/main/java/com/hmdp/service/SeckillOrderOutboxBatchWriter.java:25-65 | a batch is committed if and only if it is not empty, each event finds its order's row with the same event id, voucher, user and flag or neither the order nor the event id taken, and new events of the batch are the same or differ in both ids |
| OutboxRelay.SeckillOrderOutboxRelay.DispatchBatch | src/main/java/com/hmdp/kafka/outbox/SeckillOrderOutboxRelay.java:100-147 | each row still owned is marked sent or rescheduled with its own backoff according to its own send; lost rows are untouched; a third deadlock leaves all rows as they were |
| OutboxRelay.SeckillOrderOutboxRelay.ExactlyOnce | src/main/java/com/hmdp/kafka/outbox/SeckillOrderOutboxRelay.java:110-136 | each event id stands exactly once among the sent ids and the failure buckets, in the bucket of its own backoff |
| OutboxRelay.SeckillOrderOutboxRelay.Await | src/main/java/com/hmdp/kafka/outbox/SeckillOrderOutboxRelay.java:110-136 | the sent ids, the buckets by backoff and the last error are those of the sends |
| OutboxRelay.SeckillOrderOutboxRelay.MarkSentWithDeadlockRetry | src/main/java/com/hmdp/kafka/outbox/SeckillOrderOutboxRelay.java:149-166 | three deadlocks give up without effect, fewer do not matter |
| OutboxRelay.SeckillOrderOutboxRelay.RelayPending | src/main/java/com/hmdp/kafka/outbox/SeckillOrderOutboxRelay.java:75-94 | with others changing the table between the statements: the oldest due rows are selected, claimed as far as they are still due, and exactly those of them this relay owns when it reads them are sent and written back; nothing is read if nothing was claimed |
| OutboxRelay.SeckillOrderOutboxRelay.FindDispatchable | src/main/java/com/hmdp/mapper/SeckillOrderOutboxMapper.java:47-56 | the due rows with the smallest ids in their order, up to the limit |
| OutboxRelay.SelectedExactly | src/main/java/com/hmdp/mapper/SeckillOrderOutboxMapper.java:53-55 | a selected row is PENDING or SENT with its retry time reached and no lease that still runs; of the rows that are, only those beyond the limit are not selected |
| OutboxRelay.SeckillOrderOutboxRelay.ClaimedExactly | src/main/java/com/hmdp/mapper/SeckillOrderOutboxMapper.java:92-101 | a claim gives a selected row to the relay until the end of its lease exactly if its columns say it is still due, and changes nothing else |
| OutboxRelay.SeckillOrderOutboxRelay.ClaimedIsNotSelected | src/main/java/com/hmdp/mapper/SeckillOrderOutboxMapper.java:84-101 | a claimed row is not selected again by any relay before the lease is over, whatever others do, unless its owner wrote it back or it was requeued |
| OutboxRelay.SeckillOrderOutboxRelay.WrittenBack | src/main/java/com/hmdp/mapper/SeckillOrderOutboxMapper.java:114-135 | column by column: an acknowledged row is SENT, without an error, and due at the recheck time; another keeps its status, counts one retry, notes the error and is due after its backoff; neither has an owner then |
| OutboxRelay.SeckillOrderOutboxRelay.SentRowsWait | src/main/java/com/hmdp/kafka/outbox/SeckillOrderOutboxRelay.java:138-147 | a row that was written back is selected by no relay before its recheck or retry time, whatever others do to the table, unless it is requeued |
| OutboxRelay.RowsRest | src/main/java/com/hmdp/mapper/SeckillOrderOutboxMapper.java:84-101 | a row without owner stays without one, and its retry time is not moved forward, whatever others do before that time |
| OutboxRelay.NewRowIsSelected | src/main/java/com/hmdp/mapper/SeckillOrderOutboxMapper.java:47-56 | a new row is selected from its own time on, unless the batch is full |
| OutboxRelay.BackoffDoubles | src/main/java/com/hmdp/kafka/outbox/SeckillOrderOutboxRelay.java:180-184 | the backoff is the initial one at first, doubles up to the maximum, and grows no more after twenty failures |
| OutboxRelay.LastErrorFits | src/main/java/com/hmdp/kafka/outbox/SeckillOrderOutboxRelay.java:132-136 | the error noted is the beginning of the last failure's message and has at most 500 characters |
| OutboxRelay.MessagesAreFromOutbox | src/main/java/com/hmdp/kafka/outbox/SeckillOrderOutboxRelay.java:168-174 | a message built from a row names the row's id, order, voucher and user, and still does whatever others do to the table before it is received |
| OrderPersistence.GroupedAgainstEach | src/main/java/com/hmdp/service/impl/VoucherOrderPersistenceServiceImpl.java:32-63 | a batch that is created is created as its orders one by one would be; a batch whose orders would all be created one by one is created if and only if it is not mixed |
| OrderPersistence.BatchIsSequential | src/main/java/com/hmdp/service/impl/VoucherOrderPersistenceServiceImpl.java:32-63 | with at most one active order a buyer the batch and its orders one by one succeed together, with the same table and stocks |
| OrderPersistence.MixedBatchIsRejected | src/main/java/com/hmdp/service/impl/VoucherOrderPersistenceServiceImpl.java:50-53 | a concrete batch that is rejected although its orders one by one are created |
| OrderPersistence.BatchRight | src/main/java/com/hmdp/service/impl/VoucherOrderPersistenceServiceImpl.java:45-62 | each order of a created batch is an active row with its own id, user and voucher; old rows are untouched; each stock falls by the number of new rows |
| OrderPersistence.OneVoucherFirst | src/main/java/com/hmdp/service/impl/VoucherOrderPersistenceServiceImpl.java:38-43 | grouping by voucher does not change the outcome of creating orders one by one |
| OrderPersistence.VoucherOrderPersistenceService.CreateVoucherOrders | src/main/java/com/hmdp/service/impl/VoucherOrderPersistenceServiceImpl.java:30-63 | the loops compute the grouped creation; any error, incomplete orders included, leaves the database unchanged |
| OrderPersistence.VoucherOrderPersistenceService.VerifyIgnoredOrdersExist | src/main/java/com/hmdp/service/impl/VoucherOrderPersistenceServiceImpl.java:77-90 | the first order that is not the newest active one of its user and voucher is reported, by kind |
| OrderPersistence.VoucherOrderPersistenceService.Group | src/main/java/com/hmdp/service/impl/VoucherOrderPersistenceServiceImpl.java:38-43 | the orders by voucher, vouchers in order of first occurrence, or nothing if an order is incomplete |
| OrderPersistence.SelectOrderId | src/main/java/com/hmdp/mapper/VoucherOrderMapper.java:41-44 | the newest active order of the user and voucher, if there is one |
| OrderPersistence.SelectsNewest | src/main/java/com/hmdp/mapper/VoucherOrderMapper.java:41-44 | no active order of the user and voucher has a later creation time than the selected one, and none is selected only if there is none |
| OrderPersistence.LatestIsSelected | src/main/java/com/hmdp/mapper/VoucherOrderMapper.java:41-44 | an active order created later than all others of its user and voucher is selected |
| OrderPersistence.InsertedLaterIsSelected | src/main/java/com/hmdp/mapper/VoucherOrderMapper.java:41-51 | so is an order inserted at a later time than theirs |
| OrderPersistence.RedeliveryPassesNewest | src/main/java/com/hmdp/service/impl/VoucherOrderPersistenceServiceImpl.java:77-90 | a stored active order that comes again passes exactly if no active order of its user and voucher has a later creation time, and is a conflict with one otherwise |
| OrderPersistence.LaterOfTwo | src/main/java/com/hmdp/service/impl/VoucherOrderPersistenceServiceImpl.java:77-90 | two concrete orders created at 100 and 200: the later is selected, and the earlier refused when it comes again |
| OrderPersistence.NewOrderIsUnpaid | src/main/java/com/hmdp/service/impl/VoucherOrderPersistenceServiceImpl.java:45-62 | a new order of a created batch has status 1 and the time of its creation |
| OrderPersistence.Database.DecrementStock | src/main/java/com/hmdp/mapper/VoucherOrderMapper.java:36-39 | assumed effect of the statement: the stock falls by the amount if it is enough, otherwise nothing happens |
| OrderConsumer.SeckillOrderConsumerService.CreateOrders | src/main/java/com/hmdp/service/SeckillOrderConsumerService.java:33-71 | either the deduplicated orders are created and their rows completed, or nothing changes |
| OrderConsumer.SeckillOrderConsumerService.Collect | src/main/java/com/hmdp/service/SeckillOrderConsumerService.java:38-56 | first message and first outbox id of each order, in order; refused exactly if a message is incomplete or messages of one order disagree |
| OrderConsumer.FirstsAreAll | src/main/java/com/hmdp/service/SeckillOrderConsumerService.java:38-58 | each order of the batch occurs once, as one of its messages gives it |
| EffectivelyOnce.EffectivelyOnce | src/main/java/com/hmdp/service/SeckillOrderConsumerService.java:33-71 | any sequence of batches of outbox messages for ready vouchers, with duplicates, reordering and regrouping, leaves the orders, stocks and row statuses of one delivery of each order |
| EffectivelyOnce.ConsumedIsDelivered | src/main/java/com/hmdp/service/SeckillOrderConsumerService.java:33-71 | a batch that is consumed from any state whose rows and orders agree comes to one delivery of its orders, none of them cancelled |
| EffectivelyOnce.DeliverTwice | src/main/java/com/hmdp/service/SeckillOrderConsumerService.java:33-71 | delivering one set of orders and then another is delivering their union |
| EffectivelyOnce.ConsumedUnlessCancelled | src/main/java/com/hmdp/service/SeckillOrderConsumerService.java:58-69 | a batch of outbox messages is consumed if and only if none of its orders is cancelled |
| EffectivelyOnce.CancelledFails | src/main/java/com/hmdp/service/impl/VoucherOrderPersistenceServiceImpl.java:77-90 | a batch that holds a cancelled order fails from every state |
| EffectivelyOnce.StockNeverMismatches | src/main/java/com/hmdp/service/impl/VoucherOrderPersistenceServiceImpl.java:58-61 | with stock for what waits in the outbox no batch ever fails over stock |
| EffectivelyOnce.CompletedFromOutbox | src/main/java/com/hmdp/service/SeckillOrderConsumerService.java:60-69 | completing by outbox id and completing by order id complete the same rows |
| Reconciliation.SeckillOrderReconciliationService.ReconcileVoucher | src/main/java/com/hmdp/service/SeckillOrderReconciliationService.java:108-161 | stock and buyers become the computed ones together or stay as they were; the staging key is gone and the recovery is not held by this run in every case, and is left alone if another run has taken it over; fails only if the lease runs out |
| Reconciliation.SeckillOrderReconciliationService.MergeHandoffReservations | src/main/java/com/hmdp/service/SeckillOrderReconciliationService.java:190-212 | counts the members whose order is neither reserved nor in the outbox and adds all members' users |
| Reconciliation.SeckillOrderReconciliationService.WriteUsersInBatches | src/main/java/com/hmdp/service/SeckillOrderReconciliationService.java:163-178 | exactly the users are added, whatever the batch size, unless the lease runs out |
| Reconciliation.RecoveryStore.Rebuild | src/main/resources/lua/seckill_rebuild.lua:9-24 | assumed effect of the script: stock, buyers and release in one step if the token still holds, otherwise nothing |
| Reconciliation.HealthyStateStays | src/main/java/com/hmdp/service/SeckillOrderReconciliationService.java:118-147 | read from one reachable state, the computed stock of a voucher not adrift is the stock of Redis without what transactions have put there ahead of MySQL, and the computed buyers are those of the pipeline's account |
| StockCompensation.VoucherOrderService.CancelVoucherOrder | src/main/java/com/hmdp/service/impl/VoucherOrderServiceImpl.java:214-256 | for every outcome the gap between the stocks is as before plus what others bought meanwhile, or one off exactly if the reply was lost after the script ran, or the transaction rolled back and the buyers meanwhile had taken every unit; success, marks and what was sold are stated on the inputs, and that the order that is cancelled is an active one with no later one of its buyer |
| StockCompensation.VoucherOrderService.Cancel | src/main/java/com/hmdp/service/impl/VoucherOrderServiceImpl.java:214-236 | the body of the transaction: both stocks' changes and the mark, each under the exact condition, and MySQL unchanged on failure |
| StockCompensation.VoucherOrderService.AfterRollback | src/main/java/com/hmdp/service/impl/VoucherOrderServiceImpl.java:247-254 | the compensation after a rollback takes the unit and sets the mark exactly if a unit is left |
| StockCompensation.VoucherOrderService.End | src/main/java/com/hmdp/service/impl/VoucherOrderServiceImpl.java:238-256 | what others buy and what the end of the transaction does to both stores: the commit keeps the changes, the rollback takes them back in MySQL, and in Redis exactly if a unit is left |
| StockCompensation.LaterOrderIsCancelled | src/main/java/com/hmdp/mapper/VoucherOrderMapper.java:46-51 | of two concrete active orders created at 100 and 200 the cancellation takes the later |
| StockCompensation.CancelledAlone | src/main/java/com/hmdp/mapper/VoucherOrderMapper.java:55-59 | one order gets status 4, nothing else of the table changes |
| StockCompensation.ResoldUnitIsNotRestored | src/main/java/com/hmdp/service/impl/VoucherOrderServiceImpl.java:247-254 | a concrete cancellation whose unit is sold again before the rollback: the order is live, its buyer unmarked and the gap not restored |
| StockCompensation.VoucherService.UpdateSeckillVoucherStock | src/main/java/com/hmdp/service/impl/VoucherServiceImpl.java:183-208 | for every outcome both stocks move by the change or neither, except that a reply lost after the increment leaves Redis changed alone; success and what was sold are stated on the inputs, and exactly when the stock of Redis ends below zero |
| StockCompensation.Stores.CancelScript | src/main/resources/lua/seckill_cancel.lua:1-11 | assumed effect of the script: refused without a stock key, otherwise the unit returns and the mark goes |
| StockCompensation.Stores.CancelRollbackScript | src/main/resources/lua/seckill_cancel_rollback.lua:1-12 | assumed effect of the script: refused without stock, otherwise the unit is taken again and the mark set |
| StockCompensation.Stores.AdjustStock | src/main/java/com/hmdp/mapper/SeckillVoucherMapper.java:18-24 | assumed effect of the statement: the stock moves by the change if it stays non-negative, otherwise nothing happens |
| AcceptedOrderRecovery.RetryExactly | src/main/java/com/hmdp/service/SeckillAcceptedOrderRecoveryService.java:36-52 | a retry succeeds exactly if the order is missing and the row not completed, or the order is written and the row PENDING or SENT; it leaves the row unowned with its identity, completed, or queued with its backoff, reason and one more retry |
| AcceptedOrderRecovery.ReviewOfWrittenOrderStays | src/main/java/com/hmdp/service/SeckillAcceptedOrderRecoveryService.java:36-52 | a row under review whose order is written stays under review in every run if and only if no retry is under way that read the order as missing |
| AcceptedOrderRecovery.ReviewIsLeftByRequeue | src/main/java/com/hmdp/service/SeckillAcceptedOrderRecoveryService.java:46-52 | a step takes a row out of review if and only if it is the update of a retry that read the order as missing |
| AcceptedOrderRecovery.ReviewedRowIsCompletedAfterAll | src/main/java/com/hmdp/service/SeckillAcceptedOrderRecoveryService.java:36-52 | a concrete run: the retry reads the order as missing, the consumer writes it, the retry queues the row again, and it is completed |
| AcceptedOrderRecovery.UndisturbedRetry | src/main/java/com/hmdp/service/SeckillAcceptedOrderRecoveryService.java:36-52 | a retry whose read and update nothing comes between does to the row what the method does |
| AcceptedOrderRecovery.SeckillAcceptedOrderRecoveryService.Retry | src/main/java/com/hmdp/service/SeckillAcceptedOrderRecoveryService.java:36-52 | the row after a retry, or no change and a failure |
| AcceptedOrderRecovery.SeckillAcceptedOrderRecoveryService.RecoverDeadLetter | src/main/java/com/hmdp/kafka/SeckillOrderKafkaConsumer.java:60-78 | a dead letter retries its row, puts it under review if that fails, and is refused without order id or row |
| AcceptedOrderRecovery.SeckillAcceptedOrderRecoveryService.RetryManualReviews | src/main/java/com/hmdp/service/SeckillAcceptedOrderRecoveryService.java:55-64 | the rows under review with missing orders are queued again, those with written orders are passed over |
| IdSegments.IdsAreUnique | src/main/java/com/hmdp/service/impl/DatabaseSegmentOrderIdGenerator.java:53-106 | over any instances, threads and interleavings no id is issued twice and each lies in a range allocated to the issuing instance |
| IdSegments.RangesAreDisjoint | src/main/java/com/hmdp/service/IdSegmentAllocator.java:18-32 | allocated ranges are pairwise disjoint and below the high-water mark |
| IdSegments.IssuedWithoutGaps | src/main/java/com/hmdp/service/impl/DatabaseSegmentOrderIdGenerator.java:58-66 | whatever lies in a range before an issued id has been issued, too |
| IdSegments.RangesFollowEachOther | src/main/java/com/hmdp/service/IdSegmentAllocator.java:28-31 | the ranges follow each other without gaps from the initial mark to the present one |
| IdSegments.IdCanBeDrawn | src/main/java/com/hmdp/service/impl/DatabaseSegmentOrderIdGenerator.java:53-86 | after any run a thread that looks for an id can get one, whatever is left of the current and the next range and whoever is in the monitor, unless the segment is exhausted |
| IdSegments.OneInMonitor | src/main/java/com/hmdp/service/impl/DatabaseSegmentOrderIdGenerator.java:72-86 | after any run at most one thread of an instance is in its refill monitor |
| IdSegments.FetchedRangeTakesOver | src/main/java/com/hmdp/service/impl/DatabaseSegmentOrderIdGenerator.java:78-80 | a range that was fetched ahead takes over when the current one is used up, and its next id is drawn without a new range |
| IdSegments.FetchedRangeIsNext | src/main/java/com/hmdp/service/impl/DatabaseSegmentOrderIdGenerator.java:88-106 | a prefetch of an instance without a next range makes the range it allocates the next one |
| IdSegments.IdsAreAboveTheOldOnes | src/main/resources/db/migration/V9__create_distributed_id_segment.sql:10-13 | issued ids are longs not below the initial mark |
| IdSegments.RunKeeps | src/main/java/com/hmdp/service/impl/DatabaseSegmentOrderIdGenerator.java:53-106 | ranges, owners and issued ids stay sound over every run and the mark never falls |
| IdSegments.IdSegmentAllocator.Allocate | src/main/java/com/hmdp/service/IdSegmentAllocator.java:17-32 | the range between the old and the new mark, of the configured step if that is positive and of the segment's otherwise, or one of two errors, each under its exact condition, without change |
| IdSegments.IdSegmentMapper.Advance | src/main/java/com/hmdp/mapper/IdSegmentMapper.java:12-15 | assumed effect of the statement: the mark moves by the step and the version by one if the tag exists |
| ShopCache.StaleValuesAreBeingInvalidated | src/main/java/com/hmdp/service/impl/ShopCacheServiceImpl.java:55-150 | after any run an L1 value that is not the database's has an event its instance has still to apply, an L2 value one that every instance has still to apply |
| ShopCache.AnswersReflectAppliedEvents | src/main/java/com/hmdp/kafka/ShopCacheInvalidationConsumerHandler.java:22-25 | what an instance answers reflects every update whose event it has applied |
| ShopCache.AppliedMeansFresh | src/main/java/com/hmdp/cache/ShopCacheInvalidationHandler.java:25-31 | an instance that has applied the last event sees the database's value or none in both levels |
| ShopCache.RunKeeps | src/main/java/com/hmdp/cache/ShopCacheInvalidationPublisher.java:30-55 | the coherence invariant holds after every run, with failed deletes, crashes and expiry |
| ShopCache.FirstLevelAnswers | src/main/java/com/hmdp/service/impl/ShopCacheServiceImpl.java:62-65 | a query that finds a value in its first level is answered with it and changes nothing |
| ShopCache.SecondLevelAnswers | src/main/java/com/hmdp/service/impl/ShopCacheServiceImpl.java:73-78 | one that finds a value in the second level only is answered with that one and leaves it in its first level |
| ShopCache.EmptyCachesAnswer | src/main/java/com/hmdp/service/impl/ShopCacheServiceImpl.java:85-131 | one that finds none in either gets to the database if and only if it gets the rebuild lock |
| ShopCache.RebuildFillsBothLevels | src/main/java/com/hmdp/service/impl/ShopCacheServiceImpl.java:126-138 | a query that gets to the database leaves what it finds there in both levels |
| ShopCache.UpdateEmptiesCaches | src/main/java/com/hmdp/service/impl/ShopServiceImpl.java:100-119 | an undisturbed update leaves the new value in the database and none in L2 and its own L1 |
| ShopCache.EventEmptiesCaches | src/main/java/com/hmdp/kafka/ShopCacheInvalidationConsumerHandler.java:22-25 | an event that is consumed undisturbed is applied and leaves none in L2 and the instance's L1 |
| ShopCache.CanBecomeFresh | src/main/java/com/hmdp/kafka/ShopCacheInvalidationConsumerHandler.java:22-25 | after any run, whoever holds the lock, an instance can still get to where the last event is applied and no stale value is left in either of its levels |
| ShopCacheService.ShopCacheServiceImpl.QueryById | src/main/java/com/hmdp/service/impl/ShopCacheServiceImpl.java:55-150 | with coherent caches a query that is answered gets the database's value and leaves the caches coherent; a rebuild leaves the shop in both levels, or the null marker in L2; it fails exactly if it gets no rebuild lock and finds nothing |
| ShopCacheService.AskedOnce | src/main/java/com/hmdp/service/impl/ShopCacheServiceImpl.java:126-138 | after a rebuild an instance with an empty L1 gets the same answer, that there is no shop included, from L2 without the database |
| ShopCacheService.ShopCacheServiceImpl.ReadLastChance | src/main/java/com/hmdp/service/impl/ShopCacheServiceImpl.java:152-167 | a value of either level, or failure exactly if neither has one |
| VueChildDiff.UpdateChildren | nginx-1.18.0/html/hmdp/js/vue.js:5783-5853 | with unique new keys: the run throws exactly at the new vnode whose key lookup finds an inherited name and no slot of its own, and never if no new key is such a name; otherwise the parent ends up with exactly the new vnodes' elements, in order unless removeOnly; with unique old keys too, every keyed vnode with a same-vnode old counterpart reuses its element; a reused element always comes from a same-vnode old vnode; an update to equal vnodes leaves every element in its place |
| VueChildDiff.TakenOverIsAlike | nginx-1.18.0/html/hmdp/js/vue.js:5432-5455 | an element that is taken over was shown by an old vnode with the same key and, unless that is a placeholder of the same working factory, the same tag, comment flag and presence of data and, for inputs, the same type or two text types |
| VueChildDiff.AlikeIsTakenOver | nginx-1.18.0/html/hmdp/js/vue.js:5432-5455 | for unique old keys, a keyed vnode takes over the element of the old vnode that agrees with it in all of these |
| VueChildDiff.DivBecomesSpan | nginx-1.18.0/html/hmdp/js/vue.js:5432-5438 | an update of an unkeyed div to a span removes the div's element and shows a new one |
| VueChildDiff.SlotsAreShared | nginx-1.18.0/html/hmdp/js/vue.js:5457-5465 | keys share a slot if and only if they are equal or one is the decimal text of the other |
| VueChildDiff.InheritedKeyTrips | nginx-1.18.0/html/hmdp/js/vue.js:5828-5835 | a concrete update with a new key named constructor that throws |
| VueChildDiff.ProtoKeyTrips | nginx-1.18.0/html/hmdp/js/vue.js:5457-5465 | a concrete update whose key __proto__ both lists have, and that throws: the name never makes a slot |
| VueChildDiff.CreateKeyToOldIdx | nginx-1.18.0/html/hmdp/js/vue.js:5457-5465 | each key of the window maps to the last position that has it, except __proto__, which makes no entry |
| VueChildDiff.FindIdxInOld | nginx-1.18.0/html/hmdp/js/vue.js:5873-5878 | the first position of the window with the same vnode, or none |
| VueScheduler.Scheduler.FlushSchedulerQueue | nginx-1.18.0/html/hmdp/js/vue.js:2961-3014 | the flush runs exactly what always running the least pending watcher would run, and leaves the scheduler empty |
| VueScheduler.Scheduler.QueueWatcher | nginx-1.18.0/html/hmdp/js/vue.js:3050-3071 | the queue stays free of repeats, its rest in order during a flush, marked ids exactly those still to run, one flush asked for |
| VueScheduler.PendingIsRun | nginx-1.18.0/html/hmdp/js/vue.js:2977-2997 | a flush that is not stopped runs every watcher pending when it began |
| VueScheduler.PushedIsRunLater | nginx-1.18.0/html/hmdp/js/vue.js:2977-2997 | and every watcher that a run queued, after that run |
| VueScheduler.QuietFlushIsInOrder | nginx-1.18.0/html/hmdp/js/vue.js:2965-2973 | when runs queue nothing each pending watcher runs once in id order |
| VueScheduler.StopsExactly | nginx-1.18.0/html/hmdp/js/vue.js:2982-2996 | a flush is stopped by the run in which a watcher queues itself for the hundred and first time, and not at all if none does so more than a hundred times |
| VueDeps.Watcher.Get | nginx-1.18.0/html/hmdp/js/vue.js:3135-3157 | with getters that evaluate other watchers and run hooks, nested at will: afterwards the watcher depends on exactly the deps touched while it was the target and is subscribed to each once and to nothing else, watchers under way have noted theirs, others are as before; for balanced getters those are the deps it touches itself, and the target is restored |
| VueDeps.Watcher.AddDep | nginx-1.18.0/html/hmdp/js/vue.js:3162-3171 | a dep touched while collecting is listed once, and both sides stay linked |
| VueDeps.Watcher.CleanupDeps | nginx-1.18.0/html/hmdp/js/vue.js:3176-3194 | deps not used again lose the watcher, and the new list takes over |
| VueDeps.Watcher.Teardown | nginx-1.18.0/html/hmdp/js/vue.js:3266-3282 | no dep lists the watcher any more |
| VueDeps.Runtime.Run | nginx-1.18.0/html/hmdp/js/vue.js:693-697 | every dep a getter touches, however nested, is noted for the watcher that is the target at that moment, and for no other |
| VueDeps.TargetsReturn | nginx-1.18.0/html/hmdp/js/vue.js:713-722 | the target and the stack come back if and only if nothing is evaluated and no hook runs inside a hook or data function; otherwise some are lost |
| VueDeps.TargetsShrink | nginx-1.18.0/html/hmdp/js/vue.js:713-722 | targets are taken off too early but never too late: what is left is always a beginning of the chain of targets there was |
| VueDeps.BalancedCollects | nginx-1.18.0/html/hmdp/js/vue.js:3135-3157 | balanced actions are noted for the target exactly as far as it does them itself |
| VueDeps.LastTouchIsNoted | nginx-1.18.0/html/hmdp/js/vue.js:2914-2931 | a dep first touched after some actions is noted for the watcher if and only if those actions were balanced |
| VueDeps.ChangesAreMissed | nginx-1.18.0/html/hmdp/js/vue.js:2914-2931 | a concrete getter after which the watcher is not subscribed to a dep it has touched |
| VueDeps.RemovedOnce | nginx-1.18.0/html/hmdp/js/vue.js:136-143 | without repeats, removing an item removes exactly it |

## Left out

Assumptions of the models:

- MySQL orders rows of equal creation time by descending id; the source leaves that open. One transaction reads the clock once, and so does a round of a relay.
- INSERT IGNORE ignores duplicates only; values out of range, which MySQL would adjust, do not occur.
- Each Redis script, each SQL statement and each consumer transaction is one step, and does what the contracts of HandoffRelay.Redis, OutboxTable.OutboxMapper, OrderPersistence.Database, IdSegments.IdSegmentMapper, StockCompensation.Stores and Reconciliation.RecoveryStore say; rows of the table above that begin with "assumed effect" state such assumptions, not results.
- In `Pipeline` a cancellation and a stock adjustment are a step that changes Redis, and a commit, or a rollback and a compensation, later; their statements in MySQL show nothing before the commit and are no steps of their own. A transaction whose reply from Redis is lost is one that is rolled back and never compensated.
- Names inherited from Object.prototype are the twelve of ECMA-262, sections 20.1.3 and B.2.2; nobody has added to them.
- Vnodes of asynchronous components that are compared with a placeholder have their factory.
- The reads of reconciliation and of the status query are taken from one state; in the source they follow each other while the relays run on.
- Order ids given to purchases are new, which `IdSegments` proves of the generator.
- The quarantine of Redis is a set of entries without scores; handoff scores only give the order of a queue.
- The read/write lock of the shop cache is not lost while it is held; a lost Redis reply does not act later.

Not modelled:

- The other checks of the accept script: recovery key, activity period, voucher status, access token. They only refuse more.
- The script for automatic issue is in `Pipeline` by its effect on stock, buyers and handoff set; its subscriber queue is not, and no Java code of the repository calls it.
- The group-commit threads of the outbox service and the mysql-outbox acceptance mode, which comes to an insert followed by the removal of one handoff member.
- The lease of the handoff relay and its back-off: any number of relays run at once in `Pipeline`, so the lease is not needed for any property.
- Sorting of ids before an update, which matters for lock order only; event id, flag and time of a message.
- The expiry of the staging key of reconciliation, and the lease of the leader that reconciles all vouchers.
- Wrap-around of 64-bit counters: ids, stocks, backoffs and the counter of a range that is drawn from beyond its end are mathematical integers.
- Liveness: that relays come round, that a flush ends when watchers queue each other for ever, that reviews end.
- Exceptions thrown by watchers during a flush, which leave the Vue scheduler in its flushing state, and getters of lazy watchers evaluated after teardown.
- Null shops in the interleaved cache model, creation of shops, which takes no consistency lock, cache expiry times, and false positives of the Bloom filter.
- Vue vnodes that occur twice in one list, removal hooks that delay an element's removal, hydration, transitions and components.
- Controllers, login, blogs, follows, notifications, reminders and rankings.

Narrower than the source:

- VueChildDiff.UpdateChildren: for new lists without repeated keys, which the runtime demands with a warning, and old lists whose elements are the parent's children.
- VueScheduler.Scheduler.FlushSchedulerQueue: runs queue further watchers a finite number of times, because a flush in which they do so for ever does not end.
- VueDeps.Watcher.Get: for active watchers and getters that do not evaluate a watcher within itself.
- OutboxRelay.SeckillOrderOutboxRelay.DispatchBatch: others do nothing between the statements that write one batch back; RelayPending has them act up to there.
- Reconciliation.SeckillOrderReconciliationService.ReconcileVoucher: another run that takes the recovery over writes nothing to the voucher before this run ends.
- VueChildDiff.CreateKeyToOldIdx: keys are strings or integers; booleans, other numbers and symbols are not among them.
- IdSegments.IdsAreUnique: the generator is an interleaving of atomic steps, not a class with threads, because its point is the races between them.
