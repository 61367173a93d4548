/** Runs of the pipeline that end where one would not expect it to get. */
module PipelineRuns {
  import opened Wrappers
  import opened SeckillTypes
  import opened OutboxRows
  import opened OutboxTable
  import opened OrderPersistence
  import opened Pipeline
  import opened PipelineInvariant
  import opened PipelineTheorems
  import OrderStatus
  import Consumer = OrderConsumer
  import Once = EffectivelyOnce

  // Buyer 1 buys voucher 7 twice if the system lets him.
  const FIRST := Purchase(10, 7, 1, false)
  const SECOND := Purchase(11, 7, 1, false)

  // ---- One order on its way ----

  function Opened(): System {
    Initial().(redis := Initial().redis.(stock := map[7 := 2]), db := Db(Book(map[], map[]), map[7 := 2]))
  }

  function Accepted(p: Purchase): System {
    var receipts := if p.autoIssued then map[] else map[10 := (1, 7)];
    Opened().(redis := Redis(map[7 := 1], {(7, 1)}, {p}, receipts, {}), accepted := map[10 := p])
  }

  function Taken(): System {
    Accepted(FIRST).(relays := map[0 := Holding([FIRST])])
  }

  function Stored(now: Time): System {
    Taken().(table := Table(map[10 := NewRow(EventOf(FIRST, now))], map[10 := 0], 1),
    relays := map[0 := Inserted([FIRST])])
  }

  function Sent(): seq<Consumer.Message> {
    [Consumer.Message(Some(0), 10, 7, 1)]
  }

  function InKafka(now: Time): System {
    Stored(now).(messages := {Sent()[0]})
  }

  function Opening(): seq<Step> {
    [OpenVoucher(7, 2)]
  }

  function Bought(now: Time): seq<Step> {
    Opening() + [Accept(FIRST)] + [Read(0, [FIRST])] + [Insert(0, now)] + [Send(10, true)]
  }

  lemma OpeningOpens()
    ensures Reached(Opening()) == Opened()
  {
    assert [] + Opening() == Opening();
    OneMore([], OpenVoucher(7, 2));
    OnlyItsEffect(Initial(), OpenVoucher(7, 2));
  }

  lemma Accepts(p: Purchase)
    requires p == FIRST || p == FIRST.(autoIssued := true)
    ensures Reached(Opening() + [Accept(p)]) == Accepted(p)
  {
    OpeningOpens();
    OneMore(Opening(), Accept(p));
    OnlyItsEffect(Opened(), Accept(p));
    assert AfterAccept(Opened(), p) == Accepted(p);
  }

  lemma Takes()
    ensures Reached(Opening() + [Accept(FIRST)] + [Read(0, [FIRST])]) == Taken()
  {
    Accepts(FIRST);
    OneMore(Opening() + [Accept(FIRST)], Read(0, [FIRST]));
    OnlyItsEffect(Accepted(FIRST), Read(0, [FIRST]));
  }

  lemma InsertedRow(now: Time)
    ensures var e := EventsOf([FIRST], now);
            InsertAll(Table(map[], map[], 0), e) == Table(map[10 := NewRow(e[0])], map[10 := 0], 1)
  {
    var e := EventsOf([FIRST], now);
    assert e[1..] == [];
    var t := OutboxTable.Insert(Table(map[], map[], 0), e[0]);
    assert InsertAll(Table(map[], map[], 0), e) == InsertAll(t, []);
  }

  lemma Stores(now: Time)
    ensures Reached(Opening() + [Accept(FIRST)] + [Read(0, [FIRST])] + [Insert(0, now)]) == Stored(now)
  {
    var steps := Opening() + [Accept(FIRST)] + [Read(0, [FIRST])];
    Takes();
    AlwaysHolds(steps);
    hide Inv, InsertAll, Apply;
    OneMore(steps, Insert(0, now));
    InsertSucceeds(Taken(), 0, now);
    InsertedRow(now);
    OnlyItsEffect(Taken(), Insert(0, now));
  }

  lemma Sends(now: Time)
    ensures Reached(Bought(now)) == InKafka(now)
  {
    Stores(now);
    var steps := Opening() + [Accept(FIRST)] + [Read(0, [FIRST])] + [Insert(0, now)];
    OneMore(steps, Send(10, true));
    OnlyItsEffect(Stored(now), Send(10, true));
  }

  // ---- An order under review ----

  function WithRow(now: Time, row: Row): System {
    InKafka(now).(table := Table(map[10 := row], map[10 := 0], 1))
  }

  lemma FirstIsConsumable(steps: seq<Step>, row: Row, now: Time)
    requires Reached(steps) == WithRow(now, row)
    ensures Enabled(Reached(steps), Consume(Sent(), now))
  {
    hide Consumer.Consume, Reached, NewRow, EventOf;
    assert Calm(Reached(steps), 7);
    ConsumptionFailsOnlyOverCancelled(steps, Sent(), now);
  }

  lemma FirstIsDelivered(s: System, row: Row)
    requires s.db == Db(Book(map[], map[]), map[7 := 2]) && s.table.rows == map[10 := row]
    requires row.userId == 1 && row.voucherId == 7
    ensures Consumer.OrderIdsOf(Sent()) == {10}
    ensures var w := Once.Deliver(Once.ViewOf(Of(s)), Once.Identities(s.table), {10});
            w.orders == map[10 := OrderRow(1, 7, UNPAID)] && w.stock == map[7 := 1]
  {
    var w, who := Once.ViewOf(Of(s)), Once.Identities(s.table);
    assert Sent()[0].orderId == 10;
    assert Once.Due(w, who, {10}, 7) == {10};
  }

  lemma ConsumeTouchesTwo(s: System, now: Time)
    requires Enabled(s, Consume(Sent(), now))
    ensures var s' := Effected(s, Consume(Sent(), now));
            && s' == s.(db := s'.db, table := s'.table)
            && Once.ViewOf(Of(s')).orders == s'.db.book.orders && Once.ViewOf(Of(s')).stock == s'.db.stock
  {
    hide Consumer.Consume;
  }

  lemma FirstConsumed(s: System, row: Row, now: Time)
    requires Inv(s) && Enabled(s, Consume(Sent(), now))
    requires s.db == Db(Book(map[], map[]), map[7 := 2]) && s.table.rows == map[10 := row]
    requires row.userId == 1 && row.voucherId == 7
    ensures var s' := Effected(s, Consume(Sent(), now));
            && s'.db.book.orders == map[10 := OrderRow(1, 7, UNPAID)] && s'.db.stock == map[7 := 1]
            && s'.table.rows == map[10 := Update(MarkCompleted, row, now)]
  {
    hide Inv, Effected, Enabled, Once.Deliver, Once.ViewOf, Update, Sent, Consumer.Consume, UpdateRows;
    ConsumeDelivers(s, Sent(), now);
    ConsumeTouchesTwo(s, now);
    FirstIsDelivered(s, row);
    OnlyRow(row, now);
  }

  lemma OnlyRow(row: Row, now: Time)
    ensures UpdateRows(map[10 := row], {10}, MarkCompleted, now) == map[10 := Update(MarkCompleted, row, now)]
  {
  }

  /** The message of the first order is consumed. */
  lemma ConsumesFirst(steps: seq<Step>, row: Row, now: Time)
    requires Reached(steps) == WithRow(now, row)
    requires row.userId == 1 && row.voucherId == 7
    ensures var s := Reached(steps + [Consume(Sent(), now)]);
            && s == Reached(steps).(db := s.db, table := s.table)
            && s.db.book.orders == map[10 := OrderRow(1, 7, UNPAID)] && s.db.stock == map[7 := 1]
            && s.table.rows == map[10 := Update(MarkCompleted, row, now)]
  {
    var s, consume := Reached(steps), Consume(Sent(), now);
    FirstIsConsumable(steps, row, now);
    AlwaysHolds(steps);
    hide Inv, Apply, Enabled, Effected, Update, Sent;
    FirstConsumed(s, row, now);
    ConsumeTouchesTwo(s, now);
    OneMore(steps, consume);
    OnlyItsEffect(s, consume);
  }

  /** A row that is put under review while its message is in Kafka stays under review when the order is
      written. */
  lemma WrittenUnderReview(now: Time)
    ensures var s := Reached(Bought(now) + [UpdateRow({10}, MarkManualReview("x"), now)] + [Consume(Sent(), now)]);
            && s.db.book.orders == map[10 := OrderRow(1, 7, UNPAID)]
            && 10 in s.table.rows && s.table.rows[10].status == ManualReview
  {
    hide Reached, Bought, RowOf, Inv;
    var review := UpdateRow({10}, MarkManualReview("x"), now);
    var row := Update(MarkManualReview("x"), NewRow(EventOf(FIRST, now)), now);
    Sends(now);
    OneMore(Bought(now), review);
    OnlyItsEffect(InKafka(now), review);
    assert UpdateRows(InKafka(now).table.rows, {10}, MarkManualReview("x"), now) == map[10 := row];
    ConsumesFirst(Bought(now) + [review], row, now);
  }

  // ---- An order issued automatically ----

  /** Its buyer is told that there is no such order. */
  lemma UnknownToItsBuyer()
    ensures var s := Reached(Opening() + [Accept(FIRST.(autoIssued := true))]);
            10 in s.accepted && s.accepted[10].userId == 1 && OrderStatus.QueryStatus(s, 1, 10) == OrderStatus.NotFound
  {
    Accepts(FIRST.(autoIssued := true));
  }

  // ---- Cancellations that others interrupt ----

  function Written(now: Time): seq<Step> {
    Bought(now) + [Consume(Sent(), now)]
  }

  // The first order is written and its cancellation has changed Redis.
  ghost predicate Cancelling(s: System, transaction: Progress, stock: int, purchased: set<(VoucherId, UserId)>) {
    && s.redis.stock == map[7 := stock] && s.redis.purchased == purchased
    && s.db.book.orders == map[10 := OrderRow(1, 7, UNPAID)] && s.db.stock == map[7 := 1]
    && s.transactions == [Transaction(CancelOrder(10, 7, 1), transaction)]
    && s.adrift == {} && s.doubled == {}
  }

  lemma SelectsFirst(now: Time)
    ensures var book := Reached(Written(now)).db.book;
            && book.orders == map[10 := OrderRow(1, 7, UNPAID)] && SelectOrderId(book, 1, 7) == Some(10)
  {
    Sends(now);
    ConsumesFirst(Bought(now), NewRow(EventOf(FIRST, now)), now);
    var book := Reached(Written(now)).db.book;
    assert Candidates(book, 1, 7) == {10};
    SelectIsTop(book, 1, 7, 10);
  }

  lemma CancellationBegins(now: Time)
    ensures var s := Reached(Written(now) + [BeginCancel(10)]);
            && Cancelling(s, Open, 2, {}) && s.accepted == map[10 := FIRST]
  {
    Sends(now);
    ConsumesFirst(Bought(now), NewRow(EventOf(FIRST, now)), now);
    SelectsFirst(now);
    hide SelectOrderId, Consumer.Consume;
    var s := Reached(Written(now));
    assert !HasAnother(s, 10);
    OneMore(Written(now), BeginCancel(10));
  }

  lemma BuysAgain(now: Time)
    ensures var s := Reached(Written(now) + [BeginCancel(10)] + [Accept(SECOND)]);
            && Cancelling(s, Open, 1, {(7, 1)}) && s.accepted == map[10 := FIRST, 11 := SECOND]
  {
    CancellationBegins(now);
    var steps := Written(now) + [BeginCancel(10)];
    OneMore(steps, Accept(SECOND));
    OnlyItsEffect(Reached(steps), Accept(SECOND));
  }

  lemma RollsBack(now: Time)
    ensures var s := Reached(Written(now) + [BeginCancel(10)] + [Accept(SECOND)] + [RollBack(0)]);
            && Cancelling(s, RolledBack, 1, {(7, 1)}) && s.accepted == map[10 := FIRST, 11 := SECOND]
  {
    BuysAgain(now);
    var steps := Written(now) + [BeginCancel(10)] + [Accept(SECOND)];
    OneMore(steps, RollBack(0));
    OnlyItsEffect(Reached(steps), RollBack(0));
  }

  /** The buyer buys again while his first order is being cancelled, and then the cancellation is rolled
      back: he has two orders, and no transaction is left to change that. */
  lemma TwoLiveOrders(now: Time)
    ensures var s := Reached(Written(now) + [BeginCancel(10)] + [Accept(SECOND)] + [RollBack(0)] + [Compensate(0)]);
            && s.accepted == map[10 := FIRST, 11 := SECOND]
            && Live(s.accepted, s.db.book, 10) && Live(s.accepted, s.db.book, 11)
            && Buyer(FIRST) == Buyer(SECOND) && AtRest(s.transactions, 7) && s.doubled == {Buyer(FIRST)}
  {
    RollsBack(now);
    var steps := Written(now) + [BeginCancel(10)] + [Accept(SECOND)] + [RollBack(0)];
    OneMore(steps, Compensate(0));
    var s := Reached(steps);
    assert Settled(s.accepted, s.db.book, s.transactions, 11);
    assert HasAnother(s, 10);
    hide HasAnother;
  }

  lemma OneIsExpected(s: System)
    requires Inv(s) && Cancelling(s, Open, 2, {})
    ensures ExpectedStock(s, 7) == 1 && Ahead(s.transactions, 7) == 1
  {
    assert s.transactions[..0] == [];
    assert Ahead([], 7) == 0;
    ReconcileFindsStock(s, 7);
    hide Inv, ExpectedStock, Ahead;
    AheadOfMore([], s.transactions[0], 7);
    assert [] + [s.transactions[0]] == s.transactions;
  }

  lemma TakesBackTooEarly(now: Time)
    ensures var s := Reached(Written(now) + [BeginCancel(10)] + [Reconcile(7)]);
            && s.redis.stock == map[7 := 1] && s.db.stock == map[7 := 1] && s.adrift == {7}
            && s.db.book.orders == map[10 := OrderRow(1, 7, UNPAID)] && s.accepted == map[10 := FIRST]
            && s.transactions == [Transaction(CancelOrder(10, 7, 1), Open)]
  {
    hide Inv, ExpectedStock, RebuiltUsers, Ahead, Written, Reached, Doubling;
    CancellationBegins(now);
    var steps := Written(now) + [BeginCancel(10)];
    AlwaysHolds(steps);
    OneIsExpected(Reached(steps));
    OneMore(steps, Reconcile(7));
  }

  /** Reconciliation comes while an order is being cancelled and takes back the unit that Redis has got
      before MySQL: nothing is outstanding, and yet one unit is not for sale. */
  lemma ReconciledWhileCancelling(now: Time)
    ensures var s := Reached(Written(now) + [BeginCancel(10)] + [Reconcile(7)] + [Commit(0)]);
            && s.redis.stock == map[7 := 1] && s.db.stock == map[7 := 2]
            && Outstanding(s.accepted, s.db.book, 7) == {} && AtRest(s.transactions, 7) && s.adrift == {7}
  {
    TakesBackTooEarly(now);
    var steps := Written(now) + [BeginCancel(10)] + [Reconcile(7)];
    OneMore(steps, Commit(0));
    OnlyItsEffect(Reached(steps), Commit(0));
  }
}
