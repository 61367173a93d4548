/** The whole order pipeline as a state machine: Redis, MySQL, Kafka, any number of relays that may stop
    at any point, and any interleaving of their steps. Every script and every SQL statement is one step;
    a transaction of the consumer is one, too. A cancellation and a stock adjustment change Redis while
    their transaction is open, and others go on in between. */
module Pipeline {
  import opened Wrappers
  import opened SeckillTypes
  import opened OutboxRows
  import opened OutboxTable
  import opened OrderPersistence
  import OutboxBatchWriter
  import Consumer = OrderConsumer
  import Once = EffectivelyOnce

  type RelayId = int

  datatype Purchase = Purchase(orderId: OrderId, voucherId: VoucherId, userId: UserId, autoIssued: bool)

  // A handoff relay between reading a batch and being done with it.
  datatype Phase = Holding(batch: seq<Purchase>) | Inserted(batch: seq<Purchase>) | Conflicted(batch: seq<Purchase>)

  datatype Redis = Redis(
    stock: map<VoucherId, int>, purchased: set<(VoucherId, UserId)>, handoff: set<Purchase>,
    receipts: map<OrderId, (UserId, VoucherId)>, quarantine: set<Purchase>)

  // What a transaction of MySQL does beside Redis.
  datatype Change =
    | CancelOrder(orderId: OrderId, voucherId: VoucherId, userId: UserId)
    | AdjustStock(voucherId: VoucherId, amount: int)

  // Open until it commits; rolled back until Redis has been asked to follow, which may never happen.
  datatype Progress = Open | RolledBack | Done

  datatype Transaction = Transaction(change: Change, progress: Progress)

  // The last three are history: every purchase a customer was granted, by its order id; the vouchers
  // whose stocks came apart; the buyers who may have bought twice.
  datatype System = System(
    redis: Redis, db: Db, table: Table, messages: set<Consumer.Message>, relays: map<RelayId, Phase>,
    transactions: seq<Transaction>,
    accepted: map<OrderId, Purchase>, adrift: set<VoucherId>, doubled: set<(VoucherId, UserId)>)

  datatype Step =
    | OpenVoucher(voucherId: VoucherId, amount: nat)
    | Accept(purchase: Purchase)
    | Read(relay: RelayId, batch: seq<Purchase>)
    | Insert(relay: RelayId, now: Time)
    | Complete(relay: RelayId)
    | Split(relay: RelayId, left: bool)
    | Quarantine(relay: RelayId)
    | Stop(relay: RelayId)
    | UpdateRow(orders: set<OrderId>, statement: Statement, now: Time)
    | Send(orderId: OrderId, withId: bool)
    | Consume(received: seq<Consumer.Message>, now: Time)
    | BeginCancel(orderId: OrderId)
    | BeginAdjust(voucherId: VoucherId, change: int)
    | Commit(transaction: nat)
    | RollBack(transaction: nat)
    | Compensate(transaction: nat)
    | ChangeStatus(orderId: OrderId, status: int)
    | Reconcile(voucherId: VoucherId)

  function Initial(): System {
    System(Redis(map[], {}, {}, map[], {}), Db(Book(map[], map[]), map[]), Table(map[], map[], 0), {}, map[], [],
      map[], {}, {})
  }

  // ---- What the steps look at ----

  function EventOf(p: Purchase, now: Time): Event {
    PendingEvent(p.orderId, p.voucherId, p.userId, p.autoIssued, now)
  }

  function EventsOf(batch: seq<Purchase>, now: Time): (events: seq<Event>)
    ensures |events| == |batch| && forall i | 0 <= i < |batch| :: events[i] == EventOf(batch[i], now)
  {
    seq(|batch|, i requires 0 <= i < |batch| => EventOf(batch[i], now))
  }

  // Outbox rows still to become orders.
  function Unpersisted(s: System, v: VoucherId): set<OrderId> {
    set o | o in s.table.rows && s.table.rows[o].voucherId == v && s.table.rows[o].status != Completed
        && o !in s.db.book.orders
  }

  // Handoff members no outbox row has taken over.
  function HandoffOnly(s: System, v: VoucherId): set<Purchase> {
    set p | p in s.redis.handoff && p.voucherId == v && p.orderId !in s.table.rows
  }

  function ActiveUsers(book: Book, v: VoucherId): set<UserId> {
    set o | o in book.orders && book.orders[o].voucherId == v && Active(book.orders[o]) :: book.orders[o].userId
  }

  function ExpectedStock(s: System, v: VoucherId): int
    requires v in s.db.stock
  {
    var left := s.db.stock[v] - |Unpersisted(s, v)| - |HandoffOnly(s, v)|;
    if left < 0 then 0 else left
  }

  function RebuiltUsers(s: System, v: VoucherId): set<UserId> {
    (set o | o in Unpersisted(s, v) :: s.table.rows[o].userId)
    + ActiveUsers(s.db.book, v)
    + (set p | p in s.redis.handoff && p.voucherId == v :: p.userId)
  }

  function Buyer(p: Purchase): (VoucherId, UserId) {
    (p.voucherId, p.userId)
  }

  // Not yet an order, or an order that has not been cancelled.
  predicate Live(accepted: map<OrderId, Purchase>, book: Book, o: OrderId) {
    o in accepted && (o in book.orders ==> Active(book.orders[o]))
  }

  predicate Cancels(t: Transaction, o: OrderId) {
    !t.progress.Done? && t.change.CancelOrder? && t.change.orderId == o
  }

  // A cancellation of the order has changed Redis, and that is not the last word.
  predicate InDoubt(transactions: seq<Transaction>, o: OrderId) {
    exists i | 0 <= i < |transactions| :: Cancels(transactions[i], o)
  }

  predicate Settled(accepted: map<OrderId, Purchase>, book: Book, transactions: seq<Transaction>, o: OrderId) {
    Live(accepted, book, o) && !InDoubt(transactions, o)
  }

  // The buyer of `o` has another order, which is not being cancelled.
  predicate HasAnother(s: System, o: OrderId) {
    o in s.accepted
    && exists o' | o' in s.accepted ::
      o' != o && Buyer(s.accepted[o']) == Buyer(s.accepted[o]) && Settled(s.accepted, s.db.book, s.transactions, o')
  }

  // A transaction holds the voucher's stock row.
  predicate Locked(s: System, v: VoucherId) {
    exists i | 0 <= i < |s.transactions| :: s.transactions[i].progress.Open? && s.transactions[i].change.voucherId == v
  }

  function Amount(c: Change): int {
    if c.CancelOrder? then 1 else c.amount
  }

  function Part(t: Transaction, v: VoucherId): int {
    if !t.progress.Done? && t.change.voucherId == v then Amount(t.change) else 0
  }

  /** By how much transactions that are not done have raised the voucher's stock in Redis alone. */
  function Ahead(transactions: seq<Transaction>, v: VoucherId): int {
    if transactions == [] then 0
    else
      var n := |transactions| - 1;
      Ahead(transactions[..n], v) + Part(transactions[n], v)
  }

  // ---- The steps ----

  predicate Has(s: System, i: nat, progress: Progress) {
    i < |s.transactions| && s.transactions[i].progress == progress && s.transactions[i].change.voucherId in s.db.stock
    && s.transactions[i].change.voucherId in s.redis.stock
    && (s.transactions[i].change.CancelOrder? ==> s.transactions[i].change.orderId in s.db.book.orders)
  }

  predicate Enabled(s: System, step: Step) {
    match step
    case OpenVoucher(v, _) => v !in s.redis.stock && v !in s.db.stock
    case Accept(p) =>
      // Order ids are never given out twice.
      && p.orderId !in s.accepted
      && p.voucherId in s.redis.stock && s.redis.stock[p.voucherId] > 0
      && (p.voucherId, p.userId) !in s.redis.purchased
    case Read(relay, batch) => relay !in s.relays && batch != [] && forall p | p in batch :: p in s.redis.handoff
    case Insert(relay, _) => relay in s.relays && s.relays[relay].Holding?
    case Complete(relay) => relay in s.relays && s.relays[relay].Inserted?
    case Split(relay, _) => relay in s.relays && s.relays[relay].Conflicted? && |s.relays[relay].batch| > 1
    case Quarantine(relay) => relay in s.relays && s.relays[relay].Conflicted? && |s.relays[relay].batch| == 1
    case Stop(relay) => relay in s.relays
    case UpdateRow(orders, statement, _) =>
      // A row is completed only by those who have seen its order.
      statement.MarkCompleted? ==> orders <= s.db.book.orders.Keys
    case Send(o, _) => o in s.table.rows && o in s.table.ids
    case Consume(received, now) =>
      && (forall m | m in received :: m in s.messages)
      && (forall m | m in received && m.orderId !in s.db.book.orders :: !Locked(s, m.voucherId))
      && Consumer.Consume(Consumer.State(s.db, s.table), received, now).Ok?
    case BeginCancel(o) =>
      && o in s.db.book.orders && (s.db.book.orders[o].status == 1 || s.db.book.orders[o].status == 2)
      && var r := s.db.book.orders[o];
      && SelectOrderId(s.db.book, r.userId, r.voucherId) == Some(o)
      && r.voucherId in s.db.stock && r.voucherId in s.redis.stock && !Locked(s, r.voucherId)
    case BeginAdjust(v, amount) =>
      && amount != 0 && v in s.db.stock && s.db.stock[v] + amount >= 0 && !Locked(s, v)
      && v in s.redis.stock && s.redis.stock[v] + amount >= 0
    case Commit(i) => Has(s, i, Open)
    case RollBack(i) => Has(s, i, Open)
    case Compensate(i) => Has(s, i, RolledBack)
    case ChangeStatus(o, status) =>
      && o in s.db.book.orders && Active(s.db.book.orders[o]) && status != CANCELLED
      && forall i | 0 <= i < |s.transactions| :: !(s.transactions[i].progress.Open? && Cancels(s.transactions[i], o))
    case Reconcile(v) => v in s.db.stock
  }

  function SetOrder(db: Db, o: OrderId, r: OrderRow): Db {
    db.(book := db.book.(orders := db.book.orders[o := r]))
  }

  function AfterAccept(s: System, p: Purchase): System
    requires p.voucherId in s.redis.stock
  {
    s.(redis := s.redis.(
         stock := s.redis.stock[p.voucherId := s.redis.stock[p.voucherId] - 1],
         purchased := s.redis.purchased + {(p.voucherId, p.userId)},
         handoff := s.redis.handoff + {p},
         receipts := if p.autoIssued then s.redis.receipts else s.redis.receipts[p.orderId := (p.userId, p.voucherId)]),
       accepted := s.accepted[p.orderId := p])
  }

  function AfterInsert(s: System, relay: RelayId, now: Time): System
    requires relay in s.relays
  {
    var batch := s.relays[relay].batch;
    match OutboxBatchWriter.Commit(s.table.rows, EventsOf(batch, now))
    case Ok(_) =>
      s.(table := InsertAll(s.table, EventsOf(batch, now)), relays := s.relays[relay := Inserted(batch)])
    case Err(_) =>
      s.(relays := s.relays[relay := Conflicted(batch)])
  }

  function AfterComplete(s: System, relay: RelayId): System
    requires relay in s.relays
  {
    var batch := s.relays[relay].batch;
    s.(redis := s.redis.(
         handoff := s.redis.handoff - (set p | p in batch),
         receipts := s.redis.receipts - (set p | p in batch :: p.orderId)),
       relays := s.relays - {relay})
  }

  // The script of a cancellation runs; MySQL does not show anything yet.
  function AfterBeginCancel(s: System, o: OrderId): System
    requires o in s.db.book.orders && s.db.book.orders[o].voucherId in s.redis.stock
  {
    var r := s.db.book.orders[o];
    var v := r.voucherId;
    s.(redis := s.redis.(stock := s.redis.stock[v := s.redis.stock[v] + 1],
                         purchased := s.redis.purchased - {(v, r.userId)}),
       transactions := s.transactions + [Transaction(CancelOrder(o, v, r.userId), Open)])
  }

  function AfterBeginAdjust(s: System, v: VoucherId, amount: int): System
    requires v in s.redis.stock
  {
    s.(redis := s.redis.(stock := s.redis.stock[v := s.redis.stock[v] + amount]),
       transactions := s.transactions + [Transaction(AdjustStock(v, amount), Open)])
  }

  function WithProgress(transactions: seq<Transaction>, i: nat, progress: Progress): seq<Transaction>
    requires i < |transactions|
  {
    transactions[i := transactions[i].(progress := progress)]
  }

  function AfterCommit(s: System, i: nat): System
    requires Has(s, i, Open)
  {
    var c := s.transactions[i].change;
    var v := c.voucherId;
    var db :=
      if c.CancelOrder? then SetOrder(s.db, c.orderId, s.db.book.orders[c.orderId].(status := CANCELLED)) else s.db;
    s.(db := db.(stock := s.db.stock[v := s.db.stock[v] + Amount(c)]),
       transactions := WithProgress(s.transactions, i, Done))
  }

  /** Redis takes the change back: an adjustment always, a cancellation only if a unit is left to take. */
  function Compensated(redis: Redis, c: Change): Redis
    requires c.voucherId in redis.stock
  {
    var v := c.voucherId;
    match c
    case CancelOrder(_, _, u) =>
      if redis.stock[v] > 0
      then redis.(stock := redis.stock[v := redis.stock[v] - 1], purchased := redis.purchased + {(v, u)})
      else redis
    case AdjustStock(_, amount) =>
      redis.(stock := redis.stock[v := redis.stock[v] - amount])
  }

  function AfterCompensate(s: System, i: nat): System
    requires Has(s, i, RolledBack)
  {
    s.(redis := Compensated(s.redis, s.transactions[i].change), transactions := WithProgress(s.transactions, i, Done))
  }

  function AfterReconcile(s: System, v: VoucherId): System
    requires v in s.db.stock
  {
    s.(redis := s.redis.(
         stock := s.redis.stock[v := ExpectedStock(s, v)],
         purchased := (set b | b in s.redis.purchased && b.0 != v) + (set u | u in RebuiltUsers(s, v) :: (v, u))))
  }

  function Effected(s: System, step: Step): System
    requires Enabled(s, step)
  {
    match step
    case OpenVoucher(v, amount) =>
      s.(redis := s.redis.(stock := s.redis.stock[v := amount]), db := s.db.(stock := s.db.stock[v := amount]))
    case Accept(p) => AfterAccept(s, p)
    case Read(relay, batch) => s.(relays := s.relays[relay := Holding(batch)])
    case Insert(relay, now) => AfterInsert(s, relay, now)
    case Complete(relay) => AfterComplete(s, relay)
    case Split(relay, left) =>
      var batch := s.relays[relay].batch;
      var middle := |batch| / 2;
      s.(relays := s.relays[relay := Holding(if left then batch[..middle] else batch[middle..])])
    case Quarantine(relay) =>
      var p := s.relays[relay].batch[0];
      s.(redis := if p in s.redis.handoff
                  then s.redis.(handoff := s.redis.handoff - {p}, quarantine := s.redis.quarantine + {p})
                  else s.redis,
         relays := s.relays - {relay})
    case Stop(relay) => s.(relays := s.relays - {relay})
    case UpdateRow(orders, statement, now) =>
      s.(table := s.table.(rows := UpdateRows(s.table.rows, orders, statement, now)))
    case Send(o, withId) =>
      var id := if withId then Some(s.table.ids[o]) else None;
      s.(messages := s.messages + {Consumer.Message(id, o, s.table.rows[o].voucherId, s.table.rows[o].userId)})
    case Consume(received, now) =>
      var after := Consumer.Consume(Consumer.State(s.db, s.table), received, now).value;
      s.(db := after.db, table := after.table)
    case BeginCancel(o) => AfterBeginCancel(s, o)
    case BeginAdjust(v, amount) => AfterBeginAdjust(s, v, amount)
    case Commit(i) => AfterCommit(s, i)
    case RollBack(i) => s.(transactions := WithProgress(s.transactions, i, RolledBack))
    case Compensate(i) => AfterCompensate(s, i)
    case ChangeStatus(o, status) => s.(db := SetOrder(s.db, o, s.db.book.orders[o].(status := status)))
    case Reconcile(v) => AfterReconcile(s, v)
  }

  /** The voucher whose stocks the step takes apart: a unit that is gone cannot be taken back, an increase
      of which too much was sold is taken back below zero, and reconciliation overwrites what transactions
      under way have changed. */
  function Drifting(s: System, step: Step): set<VoucherId>
    requires Enabled(s, step)
  {
    match step
    case Compensate(i) =>
      var c := s.transactions[i].change;
      if s.redis.stock[c.voucherId] < Amount(c) then {c.voucherId} else {}
    case Reconcile(v) =>
      var ahead := Ahead(s.transactions, v);
      if ahead == 0 || (ahead > 0 && v in s.redis.stock && s.redis.stock[v] == 0) then {} else {v}
    case _ => {}
  }

  /** The buyer who may buy twice after the step: the mark is removed for one order although it stands for
      another, or an order is kept after all whose buyer has another one or cannot be marked again. */
  function Doubling(s: System, step: Step): set<(VoucherId, UserId)>
    requires Enabled(s, step)
  {
    match step
    case BeginCancel(o) => if HasAnother(s, o) then {Buyer(s.accepted[o])} else {}
    case Compensate(i) =>
      var c := s.transactions[i].change;
      if && c.CancelOrder? && Settled(s.accepted, s.db.book, WithProgress(s.transactions, i, Done), c.orderId)
         && (HasAnother(s, c.orderId)
             || (s.redis.stock[c.voucherId] <= 0 && (c.voucherId, c.userId) !in s.redis.purchased))
      then {(c.voucherId, c.userId)} else {}
    case _ => {}
  }

  /** The step, and the history with it. */
  function Apply(s: System, step: Step): System
    requires Enabled(s, step)
  {
    Effected(s, step).(adrift := s.adrift + Drifting(s, step), doubled := s.doubled + Doubling(s, step))
  }

  function Run(s: System, steps: seq<Step>): System
    decreases |steps|
  {
    if steps == [] then s
    else Run(if Enabled(s, steps[0]) then Apply(s, steps[0]) else s, steps[1..])
  }

  // ---- The invariant ----

  predicate Recorded(accepted: map<OrderId, Purchase>, p: Purchase) {
    p.orderId in accepted && accepted[p.orderId] == p
  }

  predicate RowOf(r: Row, p: Purchase) {
    IdentityOf(r) == EventIdentity(EventOf(p, 0)) && Consistent(r)
  }

  ghost predicate RowsTraced(accepted: map<OrderId, Purchase>, rows: Rows) {
    && (forall o | o in accepted :: accepted[o].orderId == o)
    && (forall o | o in rows :: o in accepted && RowOf(rows[o], accepted[o]))
  }

  ghost predicate OrdersTraced(accepted: map<OrderId, Purchase>, rows: Rows, book: Book) {
    forall o | o in book.orders ::
      && o in rows && o in accepted
      && book.orders[o].userId == accepted[o].userId && book.orders[o].voucherId == accepted[o].voucherId
  }

  /** Everything anywhere belongs to an accepted purchase and says the same about it. */
  ghost predicate Traced(s: System) {
    && Valid(s.table)
    && RowsTraced(s.accepted, s.table.rows)
    && OrdersTraced(s.accepted, s.table.rows, s.db.book)
    && (forall p | p in s.redis.handoff :: Recorded(s.accepted, p))
    && (forall o | o in s.redis.receipts ::
          o in s.accepted && s.redis.receipts[o] == (s.accepted[o].userId, s.accepted[o].voucherId)
          && !s.accepted[o].autoIssued)
    && (forall m | m in s.messages :: Once.FromOutbox(s.table, m))
  }

  predicate PhaseSound(accepted: map<OrderId, Purchase>, rows: Rows, phase: Phase) {
    && !phase.Conflicted? && phase.batch != []
    && (forall i | 0 <= i < |phase.batch| :: Recorded(accepted, phase.batch[i]))
    && (phase.Inserted? ==> forall i | 0 <= i < |phase.batch| :: phase.batch[i].orderId in rows)
  }

  /** No insert has conflicted, nothing is quarantined, and what a relay has inserted is there. */
  ghost predicate Relaying(s: System) {
    s.redis.quarantine == {} && forall r | r in s.relays :: PhaseSound(s.accepted, s.table.rows, s.relays[r])
  }

  /** No accepted purchase is lost, and no row is completed before its order is written. */
  ghost predicate Kept(s: System) {
    && (forall o | o in s.accepted :: o in s.table.rows || s.accepted[o] in s.redis.handoff)
    && (forall o | o in s.accepted && !s.accepted[o].autoIssued :: o in s.table.rows || o in s.redis.receipts)
    && (forall o | o in s.table.rows && s.table.rows[o].status == Completed :: o in s.db.book.orders)
  }

  /** What a transaction is about is there, an order is not cancelled while it is being cancelled, and one
      voucher has one open transaction. */
  ghost predicate Transacting(
    accepted: map<OrderId, Purchase>, book: Book, redisStock: map<VoucherId, int>, transactions: seq<Transaction>)
  {
    && (forall i | 0 <= i < |transactions| :: ChangeSound(accepted, book, redisStock, transactions[i]))
    && (forall i, j | 0 <= i < j < |transactions| && transactions[i].progress.Open? && transactions[j].progress.Open? ::
        transactions[i].change.voucherId != transactions[j].change.voucherId)
  }

  predicate ChangeSound(
    accepted: map<OrderId, Purchase>, book: Book, redisStock: map<VoucherId, int>, t: Transaction)
  {
    && t.change.voucherId in redisStock
    && (t.change.CancelOrder? ==>
          var o := t.change.orderId;
          && o in book.orders && o in accepted && Buyer(accepted[o]) == (t.change.voucherId, t.change.userId)
          && (t.progress.Open? ==> Active(book.orders[o])))
  }

  /** The buyer has one live order at most that is not being cancelled, and is marked for it. */
  ghost predicate BuyerSound(
    accepted: map<OrderId, Purchase>, book: Book, transactions: seq<Transaction>, purchased: set<(VoucherId, UserId)>,
    b: (VoucherId, UserId))
  {
    && (forall o | Settled(accepted, book, transactions, o) && Buyer(accepted[o]) == b :: b in purchased)
    && (forall o, o' | Settled(accepted, book, transactions, o) && Settled(accepted, book, transactions, o')
                       && Buyer(accepted[o]) == b && Buyer(accepted[o']) == b ::
          o == o')
  }

  ghost predicate Exclusive(
    accepted: map<OrderId, Purchase>, book: Book, transactions: seq<Transaction>, purchased: set<(VoucherId, UserId)>,
    doubled: set<(VoucherId, UserId)>)
  {
    forall b: (VoucherId, UserId) | b !in doubled :: BuyerSound(accepted, book, transactions, purchased, b)
  }

  // Accepted and not yet an order.
  function Outstanding(accepted: map<OrderId, Purchase>, book: Book, v: VoucherId): set<OrderId> {
    set o | o in accepted && accepted[o].voucherId == v && o !in book.orders
  }

  /** What Redis has sold and MySQL has not yet booked is what is outstanding, less what transactions that
      are not done have put back. */
  ghost predicate StockSound(
    accepted: map<OrderId, Purchase>, book: Book, transactions: seq<Transaction>, redisStock: map<VoucherId, int>,
    dbStock: map<VoucherId, int>, v: VoucherId)
    requires v in redisStock && v in dbStock
  {
    && redisStock[v] >= 0
    && dbStock[v] - redisStock[v] == |Outstanding(accepted, book, v)| - Ahead(transactions, v)
  }

  ghost predicate Conserved(
    accepted: map<OrderId, Purchase>, book: Book, transactions: seq<Transaction>, redisStock: map<VoucherId, int>,
    dbStock: map<VoucherId, int>, adrift: set<VoucherId>)
  {
    && redisStock.Keys == dbStock.Keys
    && (forall o | o in accepted :: accepted[o].voucherId in redisStock)
    && (forall v | v in redisStock && v !in adrift ::
        StockSound(accepted, book, transactions, redisStock, dbStock, v))
  }

  ghost predicate Inv(s: System) {
    && Traced(s) && Relaying(s) && Kept(s)
    && Transacting(s.accepted, s.db.book, s.redis.stock, s.transactions)
    && Exclusive(s.accepted, s.db.book, s.transactions, s.redis.purchased, s.doubled)
    && Conserved(s.accepted, s.db.book, s.transactions, s.redis.stock, s.db.stock, s.adrift)
  }
}
