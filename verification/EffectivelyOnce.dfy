/** Consuming the messages of the outbox any number of times, in any order and any batches, comes to
    delivering each order once. */
module EffectivelyOnce {
  import opened Wrappers
  import opened SeckillTypes
  import opened OutboxRows
  import opened OutboxTable
  import OutboxBatchWriter
  import opened OrderPersistence
  import opened OrderConsumer

  // ---- Enough stock and no rivals: a batch that cannot fail ----

  function FreshIds(book: Book, orders: seq<VoucherOrder>, v: VoucherId): set<OrderId> {
    set i | 0 <= i < |orders| && orders[i].id !in book.orders && orders[i].voucherId == v :: orders[i].id
  }

  ghost predicate Payable(db: Db, orders: seq<VoucherOrder>) {
    && DistinctIds(orders) && Sole(db.book, orders)
    && (forall o | o in orders && o.id in db.book.orders :: Placed(db.book, o))
    && (forall v | FreshIds(db.book, orders, v) != {} :: Enough(db.stock, v, |FreshIds(db.book, orders, v)|))
  }

  lemma StoredAloneIsNewest(book: Book, orders: seq<VoucherOrder>)
    requires orders != [] && Sole(book, orders) && Placed(book, orders[0])
    ensures Newest(book, orders[0])
  {
    var o := orders[0];
    SelectIsTop(book, o.userId, o.voucherId, o.id);
  }

  lemma FreshAfterFirst(book: Book, orders: seq<VoucherOrder>, now: Time, v: VoucherId)
    requires orders != [] && DistinctIds(orders)
    ensures var o := orders[0];
            FreshIds(InsertIgnore(book, o, now), orders[1..], v)
            == FreshIds(book, orders, v) - if o.id !in book.orders && o.voucherId == v then {o.id} else {}
    ensures orders[0].id !in book.orders ==> orders[0].id in FreshIds(book, orders, orders[0].voucherId)
  {
    var o, rest := orders[0], orders[1..];
    var book1 := InsertIgnore(book, o, now);
    forall id | id in FreshIds(book, orders, v) && id != o.id ensures id in FreshIds(book1, rest, v) {
      var i :| 0 <= i < |orders| && orders[i].id == id && id !in book.orders && orders[i].voucherId == v;
      assert rest[i - 1].id == id;
    }
    forall id | id in FreshIds(book1, rest, v) ensures id in FreshIds(book, orders, v) && id != o.id {
      var i :| 0 <= i < |rest| && rest[i].id == id && id !in book1.orders && rest[i].voucherId == v;
      assert orders[i + 1].id == id;
    }
    assert forall id | id in FreshIds(book, orders, v) && id == o.id :: o.voucherId == v;
  }

  lemma SoleAfterFirst(book: Book, orders: seq<VoucherOrder>, now: Time)
    requires orders != [] && DistinctIds(orders) && Sole(book, orders)
    ensures Sole(InsertIgnore(book, orders[0], now), orders[1..])
  {
    var book1, rest := InsertIgnore(book, orders[0], now), orders[1..];
    forall i, id | 0 <= i < |rest| && id in Candidates(book1, rest[i].userId, rest[i].voucherId)
      ensures id == rest[i].id
    {
      assert rest[i] == orders[i + 1] && orders[0].id != orders[i + 1].id;
      assert id in book.orders ==> id in Candidates(book, rest[i].userId, rest[i].voucherId);
    }
    forall i, j | 0 <= i < |rest| && 0 <= j < |rest| && rest[i].userId == rest[j].userId
        && rest[i].voucherId == rest[j].voucherId
      ensures rest[i].id == rest[j].id
    {
      assert rest[i] == orders[i + 1] && rest[j] == orders[j + 1];
    }
  }

  lemma {:induction false} PayableIsCreated(db: Db, orders: seq<VoucherOrder>, now: Time)
    requires Payable(db, orders)
    ensures CreateEach(db, orders, now).Ok?
    decreases |orders|
  {
    hide SelectOrderId, Newest;
    if orders != [] {
      var o, rest := orders[0], orders[1..];
      FreshAfterFirst(db.book, orders, now, o.voucherId);
      if o.id in db.book.orders {
        StoredAloneIsNewest(db.book, orders);
        NewestIsVerified(db.book, o);
      }
      var db1 := CreateOne(db, o, now).value;
      PayableAfterFirst(db, orders, now);
      PayableIsCreated(db1, rest, now);
    }
  }

  lemma NewestIsVerified(book: Book, o: VoucherOrder)
    requires Newest(book, o)
    ensures Verify(book, o).None?
  {
  }

  lemma PayableAfterFirst(db: Db, orders: seq<VoucherOrder>, now: Time)
    requires orders != [] && Payable(db, orders) && CreateOne(db, orders[0], now).Ok?
    ensures Payable(CreateOne(db, orders[0], now).value, orders[1..])
  {
    hide SelectOrderId, Newest, Sole;
    var o, rest := orders[0], orders[1..];
    var db1 := CreateOne(db, o, now).value;
    OneRight(db, o, now);
    SoleAfterFirst(db.book, orders, now);
    assert forall i | 0 <= i < |rest| :: rest[i] == orders[i + 1];
    forall o' | o' in rest && o'.id in db1.book.orders ensures Placed(db1.book, o') {
      assert o'.id in db.book.orders && Placed(db.book, o');
    }
    forall v | FreshIds(db1.book, rest, v) != {} ensures Enough(db1.stock, v, |FreshIds(db1.book, rest, v)|) {
      FreshAfterFirst(db.book, orders, now, v);
      assert FreshIds(db.book, orders, v) != {};
    }
  }

  // ---- One delivery ----

  // What outlasts a delivery: everything but the times.
  datatype View = View(orders: map<OrderId, OrderRow>, stock: map<VoucherId, int>, statuses: map<OrderId, Status>)

  function ViewOf(s: State): View {
    View(s.db.book.orders, s.db.stock, map o | o in s.table.rows :: s.table.rows[o].status)
  }

  function Identities(t: Table): map<OrderId, Identity> {
    map o | o in t.rows :: IdentityOf(t.rows[o])
  }

  // The orders among those given that a delivery creates.
  function Due(w: View, who: map<OrderId, Identity>, given: set<OrderId>, v: VoucherId): set<OrderId> {
    set o | o in given && o in who && o !in w.orders && who[o].voucherId == v
  }

  /** Each of the given orders once: its row, one unit of stock, its outbox row completed. */
  function Deliver(w: View, who: map<OrderId, Identity>, given: set<OrderId>): View {
    View(
      map o | o in w.orders.Keys + given * who.Keys ::
        if o in w.orders then w.orders[o] else OrderRow(who[o].userId, who[o].voucherId, UNPAID),
      map v | v in w.stock :: w.stock[v] - |Due(w, who, given, v)|,
      map o | o in w.statuses ::
        if o in given && (w.statuses[o] == Pending || w.statuses[o] == Sent) then Completed else w.statuses[o])
  }

  lemma DueTwice(w: View, who: map<OrderId, Identity>, a: set<OrderId>, b: set<OrderId>, v: VoucherId)
    ensures |Due(w, who, a + b, v)| == |Due(w, who, a, v)| + |Due(Deliver(w, who, a), who, b, v)|
  {
    var first, second := Due(w, who, a, v), Due(Deliver(w, who, a), who, b, v);
    assert Due(w, who, a + b, v) == first + second;
    assert first * second == {};
  }

  lemma RowsTwice(w: View, who: map<OrderId, Identity>, a: set<OrderId>, b: set<OrderId>)
    ensures Deliver(Deliver(w, who, a), who, b).orders == Deliver(w, who, a + b).orders
  {
    assert w.orders.Keys + a * who.Keys + b * who.Keys == w.orders.Keys + (a + b) * who.Keys;
  }

  /** Delivering twice delivers the union. */
  lemma DeliverTwice(w: View, who: map<OrderId, Identity>, a: set<OrderId>, b: set<OrderId>)
    ensures Deliver(Deliver(w, who, a), who, b) == Deliver(w, who, a + b)
  {
    hide Due;
    RowsTwice(w, who, a, b);
    forall v | v in w.stock ensures Deliver(Deliver(w, who, a), who, b).stock[v] == Deliver(w, who, a + b).stock[v] {
      DueTwice(w, who, a, b, v);
    }
    assert Deliver(Deliver(w, who, a), who, b).stock == Deliver(w, who, a + b).stock;
    assert Deliver(Deliver(w, who, a), who, b).statuses == Deliver(w, who, a + b).statuses;
  }

  // ---- The state the pipeline keeps ----

  // An active order, or an outbox row whose order is still to be created.
  predicate Live(s: State, o: OrderId, u: UserId, v: VoucherId) {
    o in Candidates(s.db.book, u, v)
    || (o in s.table.rows && o !in s.db.book.orders && s.table.rows[o].userId == u && s.table.rows[o].voucherId == v)
  }

  // An outbox row and its order agree.
  ghost predicate RowsMatch(s: State) {
    && Valid(s.table)
    && (forall o | o in s.table.rows && o in s.db.book.orders ::
          s.db.book.orders[o].userId == s.table.rows[o].userId
              && s.db.book.orders[o].voucherId == s.table.rows[o].voucherId)
  }

  /** For these vouchers nobody has two live orders, and there is stock for all that waits. */
  ghost predicate Ready(s: State, vouchers: set<VoucherId>) {
    && RowsMatch(s)
    && (forall o, o', u, v | v in vouchers && Live(s, o, u, v) && Live(s, o', u, v) :: o == o')
    && (forall v | v in vouchers && Due(ViewOf(s), Identities(s.table), s.table.rows.Keys, v) != {} ::
          Enough(s.db.stock, v, |Due(ViewOf(s), Identities(s.table), s.table.rows.Keys, v)|))
  }

  // A message built from a row of the outbox, with or without its row id.
  predicate FromOutbox(t: Table, m: Message) {
    && m.orderId in t.rows && m.orderId in t.ids
    && m.userId == t.rows[m.orderId].userId && m.voucherId == t.rows[m.orderId].voucherId
    && (m.outboxId.Some? ==> m.outboxId.value == t.ids[m.orderId])
  }

  ghost predicate Deliverable(s: State, messages: seq<Message>) {
    forall m | m in messages ::
        FromOutbox(s.table, m) && (m.orderId in s.db.book.orders ==> Active(s.db.book.orders[m.orderId]))
  }

  predicate Within(vouchers: set<VoucherId>, messages: seq<Message>) {
    forall m | m in messages :: m.voucherId in vouchers
  }

  // ---- A batch of messages ----

  lemma OrdersFromOutbox(s: State, messages: seq<Message>)
    requires Deliverable(s, messages)
    ensures Agree(messages)
    ensures forall o | o in Firsts(messages) ::
              && o.id in OrderIdsOf(messages) && o.id in s.table.rows && o.userId == s.table.rows[o.id].userId
              && o.voucherId == s.table.rows[o.id].voucherId
              && (o.id in s.db.book.orders ==> Active(s.db.book.orders[o.id]))
  {
    FirstsAreAll(messages);
    forall o | o in Firsts(messages)
      ensures o.id in s.table.rows && o.id in OrderIdsOf(messages)
    {
      var m :| m in messages && OrderIn(m) == o;
      assert Mentions(Firsts(messages), o.id);
    }
  }

  lemma FreshAreDue(s: State, messages: seq<Message>, v: VoucherId)
    requires Deliverable(s, messages)
    ensures FreshIds(s.db.book, Firsts(messages), v) == Due(ViewOf(s), Identities(s.table), OrderIdsOf(messages), v)
  {
    OrdersFromOutbox(s, messages);
    FirstsAreAll(messages);
    var orders := Firsts(messages);
    forall id | id in Due(ViewOf(s), Identities(s.table), OrderIdsOf(messages), v)
      ensures id in FreshIds(s.db.book, orders, v)
    {
      assert Mentions(orders, id);
      var o :| o in orders && o.id == id;
      var i :| 0 <= i < |orders| && orders[i] == o;
      assert orders[i].id == id && orders[i].voucherId == v;
    }
  }

  lemma FirstsWithin(vouchers: set<VoucherId>, messages: seq<Message>)
    requires Within(vouchers, messages)
    ensures forall o | o in Firsts(messages) :: o.voucherId in vouchers
  {
    FirstsAreAll(messages);
    forall o | o in Firsts(messages) ensures o.voucherId in vouchers {
      var m :| m in messages && OrderIn(m) == o;
    }
  }

  lemma SoleFromOutbox(s: State, vouchers: set<VoucherId>, messages: seq<Message>)
    requires Ready(s, vouchers) && Deliverable(s, messages) && Within(vouchers, messages)
    ensures Sole(s.db.book, Firsts(messages))
    ensures forall o | o in Firsts(messages) && o.id in s.db.book.orders :: Placed(s.db.book, o)
  {
    var orders := Firsts(messages);
    OrdersFromOutbox(s, messages);
    FirstsWithin(vouchers, messages);
    forall i | 0 <= i < |orders| ensures Live(s, orders[i].id, orders[i].userId, orders[i].voucherId) {
      assert orders[i] in orders;
    }
    forall i, id | 0 <= i < |orders| && id in Candidates(s.db.book, orders[i].userId, orders[i].voucherId)
      ensures id == orders[i].id
    {
      assert Live(s, id, orders[i].userId, orders[i].voucherId);
    }
  }

  lemma SubsetEnough(stock: map<VoucherId, int>, v: VoucherId, a: set<OrderId>, b: set<OrderId>)
    requires a <= b && Enough(stock, v, |b|)
    ensures Enough(stock, v, |a|)
  {
    assert b == a + (b - a);
  }

  lemma PayableFromOutbox(s: State, vouchers: set<VoucherId>, messages: seq<Message>)
    requires Ready(s, vouchers) && Deliverable(s, messages) && Within(vouchers, messages)
    ensures Payable(s.db, Firsts(messages))
  {
    FirstsAreAll(messages);
    FirstsWithin(vouchers, messages);
    SoleFromOutbox(s, vouchers, messages);
    var w, who := ViewOf(s), Identities(s.table);
    forall v | FreshIds(s.db.book, Firsts(messages), v) != {}
      ensures Enough(s.db.stock, v, |FreshIds(s.db.book, Firsts(messages), v)|)
    {
      var id := SomeElement(FreshIds(s.db.book, Firsts(messages), v));
      FreshAreDue(s, messages, v);
      OrdersFromOutbox(s, messages);
      var all := Due(w, who, s.table.rows.Keys, v);
      assert FreshIds(s.db.book, Firsts(messages), v) <= all;
      SubsetEnough(s.db.stock, v, FreshIds(s.db.book, Firsts(messages), v), all);
    }
  }

  lemma CreatedFromOutbox(s: State, vouchers: set<VoucherId>, messages: seq<Message>, now: Time)
    requires Ready(s, vouchers) && Deliverable(s, messages) && Within(vouchers, messages)
    ensures CreateGrouped(s.db, Firsts(messages), now).Ok?
  {
    hide CreateGrouped, CreateEach, Ready, Payable, SelectOrderId, Sole, Keeps, Deliverable;
    var orders := Firsts(messages);
    PayableFromOutbox(s, vouchers, messages);
    PayableIsCreated(s.db, orders, now);
    SoleFromOutbox(s, vouchers, messages);
    BatchIsSequential(s.db, orders, now);
  }

  lemma CreationDelivers(s: State, messages: seq<Message>, now: Time)
    requires Deliverable(s, messages) && CreateGrouped(s.db, Firsts(messages), now).Ok?
    ensures var db := CreateGrouped(s.db, Firsts(messages), now).value;
            var w := Deliver(ViewOf(s), Identities(s.table), OrderIdsOf(messages));
            db.book.orders == w.orders && db.stock == w.stock
  {
    hide CreateGrouped, Keeps, Deliverable;
    BatchRight(s.db, Firsts(messages), now);
    OrdersAreDelivered(s, messages, now);
    NewRowsAreDue(s, messages, CreateGrouped(s.db, Firsts(messages), now).value);
  }

  lemma NewRowsAreDue(s: State, messages: seq<Message>, db: Db)
    requires var w := Deliver(ViewOf(s), Identities(s.table), OrderIdsOf(messages));
             db.book.orders == w.orders && db.stock.Keys == s.db.stock.Keys
    requires forall v | v in s.db.stock :: s.db.stock[v] - db.stock[v] == |NewRows(s.db.book, db.book, v)|
    ensures db.stock == Deliver(ViewOf(s), Identities(s.table), OrderIdsOf(messages)).stock
  {
    forall v | v in s.db.stock
      ensures NewRows(s.db.book, db.book, v) == Due(ViewOf(s), Identities(s.table), OrderIdsOf(messages), v)
    {
    }
  }

  lemma OnlyOrdersAreDelivered(s: State, messages: seq<Message>, now: Time, id: OrderId)
    requires Deliverable(s, messages) && id in InsertOrders(s.db.book, Firsts(messages), now).orders
    ensures var w := Deliver(ViewOf(s), Identities(s.table), OrderIdsOf(messages));
            id in w.orders && InsertOrders(s.db.book, Firsts(messages), now).orders[id] == w.orders[id]
  {
    OrdersFromOutbox(s, messages);
    RowsComeFromOrders(s.db.book, Firsts(messages), now, id);
    hide InsertOrders, Deliverable, Firsts, DistinctIds, FromOutbox, Due, OrderIdsOf, Has;
  }

  lemma OrdersAreDelivered(s: State, messages: seq<Message>, now: Time)
    requires Deliverable(s, messages)
    requires var book := InsertOrders(s.db.book, Firsts(messages), now);
             Keeps(s.db.book, book) && forall i | 0 <= i < |Firsts(messages)| :: Placed(book, Firsts(messages)[i])
    ensures InsertOrders(s.db.book, Firsts(messages), now).orders
         == Deliver(ViewOf(s), Identities(s.table), OrderIdsOf(messages)).orders
  {
    hide InsertOrders, Deliverable, Firsts, DistinctIds, FromOutbox, Due, OrderIdsOf, Has;
    var orders := Firsts(messages);
    var book := InsertOrders(s.db.book, orders, now);
    var w := Deliver(ViewOf(s), Identities(s.table), OrderIdsOf(messages));
    FirstsAreAll(messages);
    forall id | id in book.orders ensures id in w.orders && book.orders[id] == w.orders[id] {
      OnlyOrdersAreDelivered(s, messages, now, id);
    }
    forall id | id in w.orders ensures id in book.orders {
      if id !in s.db.book.orders {
        assert Mentions(orders, id);
        var o :| o in orders && o.id == id;
        assert Placed(book, o);
      }
    }
  }

  // ---- The rows a batch completes ----

  lemma {:induction false} OutboxIdsRight(t: Table, messages: seq<Message>)
    requires forall m | m in messages :: FromOutbox(t, m)
    ensures OutboxIds(messages).Keys <= OrderIdsOf(messages)
    ensures forall o | o in OutboxIds(messages) :: o in t.ids && OutboxIds(messages)[o] == t.ids[o]
  {
    if messages != [] {
      OutboxIdsRight(t, messages[..|messages| - 1]);
      IdsOfMore(messages);
      assert messages[|messages| - 1] in messages;
    }
  }

  lemma {:induction false} AsManyAsIds(orders: seq<VoucherOrder>, ids: set<OrderId>)
    requires DistinctIds(orders) && forall id :: Mentions(orders, id) <==> id in ids
    ensures |orders| == |ids|
    decreases |orders|
  {
    if orders == [] {
      if ids != {} {
        var id := SomeElement(ids);
        assert false;
      }
    } else {
      var rest, id := orders[1..], orders[0].id;
      assert orders[0] in orders;
      forall x ensures Mentions(rest, x) <==> x in ids - {id} {
        if Mentions(orders, x) && x != id {
          var o :| o in orders && o.id == x;
          assert o in rest;
        }
        if Mentions(rest, x) {
          var o :| o in rest && o.id == x;
          var i :| 0 <= i < |rest| && rest[i] == o;
          assert orders[i + 1] == o;
        }
      }
      AsManyAsIds(rest, ids - {id});
    }
  }

  lemma CompletedFromOutbox(s: State, messages: seq<Message>)
    requires Valid(s.table) && Deliverable(s, messages)
    ensures CompletedOrders(s.table, messages) == OrderIdsOf(messages)
  {
    var ids, given := OutboxIds(messages), OrderIdsOf(messages);
    OutboxIdsRight(s.table, messages);
    FirstsAreAll(messages);
    AsManyAsIds(Firsts(messages), given);
    if |ids| == |Firsts(messages)| {
      assert |ids.Keys| == |ids|;
      OutboxBatchWriter.SameSizeSubset(ids.Keys, given);
      forall o ensures o in OrdersOf(s.table, ids.Values) <==> o in given {
        if o in OrdersOf(s.table, ids.Values) {
          var o' :| o' in ids && ids[o'] == s.table.ids[o];
        }
        if o in given {
          assert ids[o] in ids.Values;
        }
      }
    }
  }

  lemma CreatedIsPlaced(db: Db, orders: seq<VoucherOrder>, o: VoucherOrder, now: Time)
    requires o in orders && CreateGrouped(db, orders, now).Ok?
    ensures var book := CreateGrouped(db, orders, now).value.book;
            Keeps(db.book, book) && Placed(book, o)
  {
    BatchRight(db, orders, now);
  }

  /** A batch that holds the message of a cancelled order fails, whatever else is in the database. */
  lemma CancelledFails(s: State, messages: seq<Message>, now: Time, m: Message)
    requires m in messages && m.orderId in s.db.book.orders && !Active(s.db.book.orders[m.orderId])
    ensures Consume(s, messages, now).Err?
  {
    hide CreateGrouped, SelectOrderId;
    FirstsAreAll(messages);
    var i :| 0 <= i < |messages| && messages[i] == m;
    assert m.orderId in OrderIdsOf(messages);
    var o :| o in Firsts(messages) && o.id == m.orderId;
    if CreateGrouped(s.db, Firsts(messages), now).Ok? {
      CreatedIsPlaced(s.db, Firsts(messages), o, now);
    }
  }

  /** A batch that is consumed comes to one delivery of its orders, none of which is cancelled. */
  lemma ConsumedIsDelivered(s: State, messages: seq<Message>, now: Time)
    requires RowsMatch(s) && (forall m | m in messages :: FromOutbox(s.table, m)) && Consume(s, messages, now).Ok?
    ensures Deliverable(s, messages)
    ensures var s' := Consume(s, messages, now).value;
            && ViewOf(s') == Deliver(ViewOf(s), Identities(s.table), OrderIdsOf(messages))
            && Identities(s'.table) == Identities(s.table) && s'.table.ids == s.table.ids && RowsMatch(s')
            && s'.table
               == s.table.(rows := UpdateRows(s.table.rows, OrderIdsOf(messages), MarkCompleted, now))
  {
    forall m | m in messages ensures m.orderId in s.db.book.orders ==> Active(s.db.book.orders[m.orderId]) {
      if m.orderId in s.db.book.orders && !Active(s.db.book.orders[m.orderId]) {
        CancelledFails(s, messages, now, m);
      }
    }
    hide RowsMatch, Deliverable, CreateGrouped, Firsts, Agree, CompletedOrders, Update, Deliver;
    var who, given := Identities(s.table), OrderIdsOf(messages);
    RowsMatchIsValid(s);
    CreationDelivers(s, messages, now);
    CompletedFromOutbox(s, messages);
    var s' := Consume(s, messages, now).value;
    RowsAreCompleted(s, given, now);
    assert ViewOf(s').statuses == Deliver(ViewOf(s), who, given).statuses;
    RowsStillMatch(s, s', given);
  }

  lemma RowsMatchIsValid(s: State)
    requires RowsMatch(s)
    ensures Valid(s.table)
  {
  }

  /** Where it is ready the batch cannot fail, and it stays ready. */
  lemma BatchDelivers(s: State, vouchers: set<VoucherId>, messages: seq<Message>, now: Time)
    requires Ready(s, vouchers) && Deliverable(s, messages) && Within(vouchers, messages)
    ensures Consume(s, messages, now).Ok?
    ensures var s' := Consume(s, messages, now).value;
            && ViewOf(s') == Deliver(ViewOf(s), Identities(s.table), OrderIdsOf(messages))
            && Identities(s'.table) == Identities(s.table) && s'.table.ids == s.table.ids
            && Ready(s', vouchers)
  {
    OrdersFromOutbox(s, messages);
    hide Ready, CreateGrouped, Firsts, Agree, CompletedOrders, Deliver;
    CreatedFromOutbox(s, vouchers, messages, now);
    ReadyMatches(s, vouchers);
    ConsumedIsDelivered(s, messages, now);
    StaysReady(s, Consume(s, messages, now).value, vouchers, OrderIdsOf(messages));
  }

  lemma ReadyMatches(s: State, vouchers: set<VoucherId>)
    requires Ready(s, vouchers)
    ensures RowsMatch(s)
  {
  }

  lemma RowsAreCompleted(s: State, given: set<OrderId>, now: Time)
    requires Valid(s.table)
    ensures var t := s.table.(rows := UpdateRows(s.table.rows, given, MarkCompleted, now));
            && (map o | o in t.rows :: t.rows[o].status) == Deliver(ViewOf(s), Identities(s.table), given).statuses
            && Identities(t) == Identities(s.table) && Valid(t)
  {
    hide Due;
    var t := s.table.(rows := UpdateRows(s.table.rows, given, MarkCompleted, now));
    var statuses := map o | o in t.rows :: t.rows[o].status;
    var delivered := Deliver(ViewOf(s), Identities(s.table), given).statuses;
    assert statuses.Keys == delivered.Keys;
    forall o | o in s.table.rows ensures statuses[o] == delivered[o] && Identities(t)[o] == Identities(s.table)[o] {
      assert ViewOf(s).statuses[o] == s.table.rows[o].status;
    }
    assert Identities(t) == Identities(s.table);
  }

  // What is live stays live, and what is due shrinks by what was delivered.
  lemma LiveAsBefore(s: State, s': State, given: set<OrderId>, o: OrderId, u: UserId, v: VoucherId)
    requires s'.table.rows.Keys == s.table.rows.Keys && Identities(s'.table) == Identities(s.table)
    requires s'.db.book.orders == Deliver(ViewOf(s), Identities(s.table), given).orders
    ensures Live(s', o, u, v) ==> Live(s, o, u, v)
  {
    if o in s.table.rows {
      assert Identities(s'.table)[o] == IdentityOf(s'.table.rows[o]);
      assert Identities(s.table)[o] == IdentityOf(s.table.rows[o]);
    }
  }

  lemma LeftDue(w: View, who: map<OrderId, Identity>, given: set<OrderId>, v: VoucherId)
    ensures |Due(w, who, who.Keys, v)| == |Due(w, who, given, v)| + |Due(Deliver(w, who, given), who, who.Keys, v)|
  {
    var before, done, after := Due(w, who, who.Keys, v), Due(w, who, given, v),
        Due(Deliver(w, who, given), who, who.Keys, v);
    assert before == done + after;
    assert done * after == {};
  }

  lemma StaysReady(s: State, s': State, vouchers: set<VoucherId>, given: set<OrderId>)
    requires Ready(s, vouchers) && RowsMatch(s') && Identities(s'.table) == Identities(s.table)
    requires ViewOf(s') == Deliver(ViewOf(s), Identities(s.table), given)
    ensures Ready(s', vouchers)
  {
    hide Live, Due, Deliver;
    var w, who := ViewOf(s), Identities(s.table);
    assert s.table.rows.Keys == who.Keys && s'.table.rows.Keys == who.Keys;
    forall o, o', u, v | v in vouchers && Live(s', o, u, v) && Live(s', o', u, v) ensures o == o' {
      LiveAsBefore(s, s', given, o, u, v);
      LiveAsBefore(s, s', given, o', u, v);
    }
    forall v | v in vouchers && Due(ViewOf(s'), who, who.Keys, v) != {}
      ensures Enough(s'.db.stock, v, |Due(ViewOf(s'), who, who.Keys, v)|)
    {
      LeftDue(w, who, given, v);
      StockLeft(w, who, given, v);
    }
  }

  lemma StockLeft(w: View, who: map<OrderId, Identity>, given: set<OrderId>, v: VoucherId)
    ensures v in Deliver(w, who, given).stock <==> v in w.stock
    ensures v in w.stock ==> Deliver(w, who, given).stock[v] == w.stock[v] - |Due(w, who, given, v)|
    ensures Due(Deliver(w, who, given), who, who.Keys, v) != {} ==> Due(w, who, who.Keys, v) != {}
  {
    assert Due(Deliver(w, who, given), who, who.Keys, v) <= Due(w, who, who.Keys, v);
  }

  lemma RowsStillMatch(s: State, s': State, given: set<OrderId>)
    requires RowsMatch(s) && Valid(s'.table) && Identities(s'.table) == Identities(s.table)
    requires s'.db.book.orders == Deliver(ViewOf(s), Identities(s.table), given).orders
    ensures RowsMatch(s')
  {
    assert Identities(s'.table).Keys == s'.table.rows.Keys && Identities(s.table).Keys == s.table.rows.Keys;
    forall o | o in s'.table.rows && o in s'.db.book.orders
      ensures s'.db.book.orders[o].userId == s'.table.rows[o].userId
          && s'.db.book.orders[o].voucherId == s'.table.rows[o].voucherId
    {
      assert Identities(s'.table)[o] == IdentityOf(s'.table.rows[o]);
      assert Identities(s.table)[o] == IdentityOf(s.table.rows[o]);
    }
  }

  // ---- Any sequence of batches ----

  function ConsumeAll(s: State, batches: seq<(seq<Message>, Time)>): Result<State, ConsumeError>
    decreases |batches|
  {
    if batches == [] then Ok(s)
    else match Consume(s, batches[0].0, batches[0].1)
      case Err(e) => Err(e)
      case Ok(s1) => ConsumeAll(s1, batches[1..])
  }

  function AllIds(batches: seq<(seq<Message>, Time)>): set<OrderId> {
    if batches == [] then {} else OrderIdsOf(batches[0].0) + AllIds(batches[1..])
  }

  ghost predicate AllDeliverable(s: State, vouchers: set<VoucherId>, batches: seq<(seq<Message>, Time)>) {
    forall i | 0 <= i < |batches| :: Deliverable(s, batches[i].0) && Within(vouchers, batches[i].0)
  }

  lemma StaysDeliverable(s: State, s': State, given: set<OrderId>, messages: seq<Message>)
    requires Identities(s'.table) == Identities(s.table) && s'.table.ids == s.table.ids
    requires ViewOf(s') == Deliver(ViewOf(s), Identities(s.table), given)
    requires Deliverable(s, messages)
    ensures Deliverable(s', messages)
  {
    forall m | m in messages ensures FromOutbox(s'.table, m) {
      assert m.orderId in Identities(s.table) && m.orderId in Identities(s'.table);
      assert Identities(s'.table)[m.orderId] == IdentityOf(s'.table.rows[m.orderId]);
      assert Identities(s.table)[m.orderId] == IdentityOf(s.table.rows[m.orderId]);
    }
  }

  /** Any batches of outbox messages, repeated, reordered and regrouped at will, leave what one
      delivery of each order leaves. */
  lemma {:induction false} EffectivelyOnce(s: State, vouchers: set<VoucherId>, batches: seq<(seq<Message>, Time)>)
    requires Ready(s, vouchers) && AllDeliverable(s, vouchers, batches)
    ensures ConsumeAll(s, batches).Ok?
    ensures ViewOf(ConsumeAll(s, batches).value) == Deliver(ViewOf(s), Identities(s.table), AllIds(batches))
    decreases |batches|
  {
    hide Consume, Ready, Deliverable, Deliver;
    var w, who := ViewOf(s), Identities(s.table);
    if batches == [] {
      NothingDelivered(s);
    } else {
      var (messages, now) := batches[0];
      BatchDelivers(s, vouchers, messages, now);
      var s1 := Consume(s, messages, now).value;
      forall i | 0 <= i < |batches[1..]|
        ensures Deliverable(s1, batches[1..][i].0) && Within(vouchers, batches[1..][i].0)
      {
        StaysDeliverable(s, s1, OrderIdsOf(messages), batches[i + 1].0);
      }
      EffectivelyOnce(s1, vouchers, batches[1..]);
      DeliverTwice(w, who, OrderIdsOf(messages), AllIds(batches[1..]));
    }
  }

  lemma NothingDelivered(s: State)
    ensures Deliver(ViewOf(s), Identities(s.table), {}) == ViewOf(s)
  {
    var w, who := ViewOf(s), Identities(s.table);
    assert forall v :: Due(w, who, {}, v) == {};
    assert Deliver(w, who, {}).orders == w.orders;
    assert Deliver(w, who, {}).stock == w.stock;
    assert Deliver(w, who, {}).statuses == w.statuses;
  }

  /** From a state the pipeline keeps, a batch of outbox messages is consumed if and only if none of
      its orders has been cancelled. */
  lemma ConsumedUnlessCancelled(s: State, vouchers: set<VoucherId>, messages: seq<Message>, now: Time)
    requires Ready(s, vouchers) && Within(vouchers, messages) && forall m | m in messages :: FromOutbox(s.table, m)
    ensures Consume(s, messages, now).Ok?
       <==> forall m | m in messages && m.orderId in s.db.book.orders :: Active(s.db.book.orders[m.orderId])
  {
    if m :| m in messages && m.orderId in s.db.book.orders && !Active(s.db.book.orders[m.orderId]) {
      CancelledFails(s, messages, now, m);
    } else {
      BatchDelivers(s, vouchers, messages, now);
    }
  }

  // ---- Stock is never missing ----

  lemma {:induction false} CountsFresh(book: Book, orders: seq<VoucherOrder>, now: Time, v: VoucherId)
    requires DistinctIds(orders) && forall o | o in orders :: o.voucherId == v
    ensures Inserted(book, orders, now) == |FreshIds(book, orders, v)|
    decreases |orders|
  {
    if orders == [] {
      assert FreshIds(book, orders, v) == {};
    } else {
      FreshAfterFirst(book, orders, now, v);
      CountsFresh(InsertIgnore(book, orders[0], now), orders[1..], now, v);
    }
  }

  lemma DistinctWithFirst(o: VoucherOrder, orders: seq<VoucherOrder>)
    requires DistinctIds(orders) && forall x | x in orders :: x.id != o.id
    ensures DistinctIds([o] + orders)
  {
    var more := [o] + orders;
    forall i, j | 0 <= i < j < |more| ensures more[i].id != more[j].id {
      assert more[j] == orders[j - 1] && orders[j - 1] in orders;
    }
  }

  lemma HeadIsApart(orders: seq<VoucherOrder>)
    requires orders != [] && DistinctIds(orders)
    ensures DistinctIds(orders[1..]) && forall x | x in orders[1..] :: x.id != orders[0].id
    ensures forall x | x in orders[1..] :: x in orders
  {
    var o, rest := orders[0], orders[1..];
    forall i | 0 <= i < |rest| ensures rest[i].id != o.id {
      assert rest[i] == orders[i + 1];
    }
    forall i, j | 0 <= i < j < |rest| ensures rest[i].id != rest[j].id {
      assert rest[i] == orders[i + 1] && rest[j] == orders[j + 1];
    }
  }

  lemma {:induction false} SplitIds(orders: seq<VoucherOrder>, v: VoucherId)
    requires DistinctIds(orders)
    ensures DistinctIds(Only(orders, v)) && DistinctIds(Others(orders, v))
    ensures forall o | o in Only(orders, v) || o in Others(orders, v) :: o in orders
  {
    if orders == [] {
      assert Only(orders, v) == [] && Others(orders, v) == [];
    } else {
      hide Only, Others, DistinctIds;
      var o, rest := orders[0], orders[1..];
      HeadIsApart(orders);
      SplitIds(rest, v);
      HeadSplit(orders, v);
      if o.voucherId == v {
        DistinctWithFirst(o, Only(rest, v));
      } else {
        DistinctWithFirst(o, Others(rest, v));
      }
    }
  }

  lemma FreshOfOnly(book: Book, orders: seq<VoucherOrder>, v: VoucherId)
    ensures FreshIds(book, Only(orders, v), v) == FreshIds(book, orders, v)
  {
    var only := Only(orders, v);
    forall id | id in FreshIds(book, only, v) ensures id in FreshIds(book, orders, v) {
      var i :| 0 <= i < |only| && only[i].id == id && id !in book.orders && only[i].voucherId == v;
      OnlyAreMembers(orders, v, only[i]);
      var k :| 0 <= k < |orders| && orders[k] == only[i];
      assert orders[k].id == id;
    }
    forall id | id in FreshIds(book, orders, v) ensures id in FreshIds(book, only, v) {
      var i :| 0 <= i < |orders| && orders[i].id == id && id !in book.orders && orders[i].voucherId == v;
      assert orders[i] in only;
      var k :| 0 <= k < |only| && only[k] == orders[i];
      assert only[k].id == id;
    }
  }

  ghost predicate Stocked(db: Db, orders: seq<VoucherOrder>) {
    forall v | FreshIds(db.book, orders, v) != {} :: Enough(db.stock, v, |FreshIds(db.book, orders, v)|)
  }

  lemma StillStocked(db: Db, db': Db, orders: seq<VoucherOrder>, v: VoucherId)
    requires Stocked(db, orders) && Keeps(db.book, db'.book)
    requires forall w | w != v :: (w in db'.stock <==> w in db.stock) && (w in db.stock ==> db'.stock[w] == db.stock[w])
    ensures Stocked(db', Others(orders, v))
  {
    var others := Others(orders, v);
    forall w | FreshIds(db'.book, others, w) != {} ensures Enough(db'.stock, w, |FreshIds(db'.book, others, w)|) {
      var all, left := FreshIds(db.book, orders, w), FreshIds(db'.book, others, w);
      forall id | id in left ensures id in all && w != v {
        var i :| 0 <= i < |others| && others[i].id == id && id !in db'.book.orders && others[i].voucherId == w;
        assert others[i] in orders;
        var k :| 0 <= k < |orders| && orders[k] == others[i];
        assert orders[k].id == id;
      }
      var id := SomeElement(left);
      assert id in all && w != v;
      SubsetEnough(db.stock, w, left, all);
    }
  }

  lemma {:induction false} InsertsKeep(book: Book, orders: seq<VoucherOrder>, now: Time)
    ensures Keeps(book, InsertOrders(book, orders, now))
    decreases |orders|
  {
    if orders != [] {
      InsertsKeep(InsertIgnore(book, orders[0], now), orders[1..], now);
    }
  }

  /** With stock for every fresh order, creating a batch can fail over a conflict, but never over stock. */
  lemma {:induction false} NeverShort(db: Db, orders: seq<VoucherOrder>, now: Time)
    requires DistinctIds(orders) && Stocked(db, orders)
    ensures var r := CreateGrouped(db, orders, now); r.Err? ==> !r.error.StockMismatch?
    decreases |orders|
  {
    if orders != [] {
      var v := orders[0].voucherId;
      var only := Only(orders, v);
      SplitIds(orders, v);
      FreshOfOnly(db.book, orders, v);
      CountsFresh(db.book, only, now, v);
      InsertsKeep(db.book, only, now);
      var r := CreateGroup(db, v, only, now);
      NoStockError(db, v, only, now);
      if r.Ok? {
        StillStocked(db, r.value, orders, v);
        NeverShort(r.value, Others(orders, v), now);
      }
    }
  }

  lemma {:induction false} VerifyErrors(book: Book, orders: seq<VoucherOrder>)
    ensures VerifyAll(book, orders).Some? ==> !VerifyAll(book, orders).value.StockMismatch?
  {
    if orders != [] {
      VerifyErrors(book, orders[1..]);
    }
  }

  lemma NoStockError(db: Db, v: VoucherId, group: seq<VoucherOrder>, now: Time)
    requires var n := Inserted(db.book, group, now); n == 0 || Enough(db.stock, v, n)
    ensures var r := CreateGroup(db, v, group, now); r.Err? ==> !r.error.StockMismatch?
  {
    VerifyErrors(InsertOrders(db.book, group, now), group);
  }

  /** From a state the pipeline keeps, the mismatch of database stock cannot occur, cancelled orders or not. */
  lemma StockNeverMismatches(s: State, vouchers: set<VoucherId>, messages: seq<Message>, now: Time)
    requires Ready(s, vouchers) && Within(vouchers, messages) && forall m | m in messages :: FromOutbox(s.table, m)
    ensures var r := Consume(s, messages, now);
            r.Err? ==> r.error.NotCreated? && !r.error.reason.StockMismatch?
  {
    FirstsFromOutbox(s, messages);
    FirstsAreAll(messages);
    FirstsWithin(vouchers, messages);
    var orders, w, who := Firsts(messages), ViewOf(s), Identities(s.table);
    forall v | FreshIds(s.db.book, orders, v) != {} ensures Enough(s.db.stock, v, |FreshIds(s.db.book, orders, v)|) {
      var all := Due(w, who, s.table.rows.Keys, v);
      var id := SomeElement(FreshIds(s.db.book, orders, v));
      assert FreshIds(s.db.book, orders, v) <= all;
      SubsetEnough(s.db.stock, v, FreshIds(s.db.book, orders, v), all);
    }
    NeverShort(s.db, orders, now);
  }

  lemma FirstsFromOutbox(s: State, messages: seq<Message>)
    requires forall m | m in messages :: FromOutbox(s.table, m)
    ensures Agree(messages)
    ensures forall o | o in Firsts(messages) :: o.id in s.table.rows && o.voucherId == s.table.rows[o.id].voucherId
  {
    assert forall i | 0 <= i < |messages| :: messages[i] in messages && FromOutbox(s.table, messages[i]);
    FirstsAreAll(messages);
    forall o | o in Firsts(messages) ensures o.id in s.table.rows && o.voucherId == s.table.rows[o.id].voucherId {
      var m :| m in messages && OrderIn(m) == o;
    }
  }
}
