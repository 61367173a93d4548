/** Every step of the pipeline keeps its invariant, so every run does. */
module PipelineInvariant {
  import opened Wrappers
  import opened SeckillTypes
  import opened OutboxRows
  import opened OutboxTable
  import opened OrderPersistence
  import opened Pipeline
  import OutboxBatchWriter
  import Decimals
  import Consumer = OrderConsumer
  import Once = EffectivelyOnce

  lemma InitialHolds()
    ensures Inv(Initial())
  {
  }

  // ---- Purchases ----

  lemma AcceptExclusive(s: System, p: Purchase)
    requires Exclusive(s.accepted, s.db.book, s.transactions, s.redis.purchased, s.doubled)
    requires p.orderId !in s.accepted && Buyer(p) !in s.redis.purchased
    ensures Exclusive(s.accepted[p.orderId := p], s.db.book, s.transactions, s.redis.purchased + {Buyer(p)}, s.doubled)
  {
    hide InDoubt;
    var accepted' := s.accepted[p.orderId := p];
    forall b: (VoucherId, UserId) | b !in s.doubled
      ensures BuyerSound(accepted', s.db.book, s.transactions, s.redis.purchased + {Buyer(p)}, b)
    {
      assert BuyerSound(s.accepted, s.db.book, s.transactions, s.redis.purchased, b);
      forall o | Settled(accepted', s.db.book, s.transactions, o) && o != p.orderId
        ensures Settled(s.accepted, s.db.book, s.transactions, o)
      {
      }
    }
  }

  lemma MoreOutstanding(accepted: map<OrderId, Purchase>, book: Book, p: Purchase, v: VoucherId)
    requires p.orderId !in accepted && p.orderId !in book.orders
    ensures |Outstanding(accepted[p.orderId := p], book, v)|
         == |Outstanding(accepted, book, v)| + if v == p.voucherId then 1 else 0
  {
    assert Outstanding(accepted[p.orderId := p], book, v)
        == Outstanding(accepted, book, v) + if v == p.voucherId then {p.orderId} else {};
  }

  lemma AcceptConserved(s: System, p: Purchase)
    requires Conserved(s.accepted, s.db.book, s.transactions, s.redis.stock, s.db.stock, s.adrift)
    requires p.orderId !in s.accepted && p.orderId !in s.db.book.orders
    requires p.voucherId in s.redis.stock && s.redis.stock[p.voucherId] > 0
    ensures Conserved(s.accepted[p.orderId := p], s.db.book, s.transactions,
                      s.redis.stock[p.voucherId := s.redis.stock[p.voucherId] - 1], s.db.stock, s.adrift)
  {
    hide Outstanding, Ahead;
    var accepted' := s.accepted[p.orderId := p];
    forall v
      ensures |Outstanding(accepted', s.db.book, v)|
           == |Outstanding(s.accepted, s.db.book, v)| + if v == p.voucherId then 1 else 0
    {
      MoreOutstanding(s.accepted, s.db.book, p, v);
    }
    forall v | v in s.redis.stock && v !in s.adrift
      ensures StockSound(accepted', s.db.book, s.transactions,
                         s.redis.stock[p.voucherId := s.redis.stock[p.voucherId] - 1], s.db.stock, v)
    {
      assert StockSound(s.accepted, s.db.book, s.transactions, s.redis.stock, s.db.stock, v);
    }
  }

  // Orders and vouchers become more, and no order becomes cancelled.
  lemma TransactingStays(
    accepted: map<OrderId, Purchase>, book: Book, redisStock: map<VoucherId, int>, transactions: seq<Transaction>,
    accepted': map<OrderId, Purchase>, book': Book, redisStock': map<VoucherId, int>)
    requires Transacting(accepted, book, redisStock, transactions) && redisStock.Keys <= redisStock'.Keys
    requires forall o | o in accepted :: o in accepted' && accepted'[o] == accepted[o]
    requires forall o | o in book.orders :: o in book'.orders && (Active(book.orders[o]) ==> Active(book'.orders[o]))
    ensures Transacting(accepted', book', redisStock', transactions)
  {
    forall i | 0 <= i < |transactions| ensures ChangeSound(accepted', book', redisStock', transactions[i]) {
      assert ChangeSound(accepted, book, redisStock, transactions[i]);
    }
  }

  lemma AcceptTraced(s: System, p: Purchase)
    requires Traced(s) && Enabled(s, Accept(p))
    ensures Traced(AfterAccept(s, p))
  {
    hide RowOf, Once.FromOutbox, Valid;
  }

  lemma AcceptRelaying(s: System, p: Purchase)
    requires Relaying(s) && Enabled(s, Accept(p))
    ensures Relaying(AfterAccept(s, p))
  {
    var s' := AfterAccept(s, p);
    forall r | r in s'.relays ensures PhaseSound(s'.accepted, s'.table.rows, s'.relays[r]) {
      assert PhaseSound(s.accepted, s.table.rows, s.relays[r]);
    }
  }

  lemma AcceptKept(s: System, p: Purchase)
    requires Kept(s) && Enabled(s, Accept(p))
    ensures Kept(AfterAccept(s, p))
  {
  }

  lemma AcceptKeeps(s: System, p: Purchase)
    requires Inv(s) && Enabled(s, Accept(p))
    ensures Inv(Effected(s, Accept(p)))
  {
    NotYetAnOrder(s, p.orderId);
    hide Traced, Relaying, Kept, Transacting, Exclusive, Conserved;
    AcceptTraced(s, p);
    AcceptRelaying(s, p);
    AcceptKept(s, p);
    AcceptExclusive(s, p);
    AcceptConserved(s, p);
    TransactingStays(s.accepted, s.db.book, s.redis.stock, s.transactions, s.accepted[p.orderId := p], s.db.book,
        s.redis.stock[p.voucherId := s.redis.stock[p.voucherId] - 1]);
  }

  lemma NotYetAnOrder(s: System, o: OrderId)
    requires Traced(s)
    ensures o in s.db.book.orders ==> o in s.accepted
  {
  }

  lemma NoneOutstanding(accepted: map<OrderId, Purchase>, book: Book, v: VoucherId)
    requires forall o | o in accepted :: accepted[o].voucherId != v
    ensures |Outstanding(accepted, book, v)| == 0
  {
    if Outstanding(accepted, book, v) != {} {
      var o := SomeElement(Outstanding(accepted, book, v));
      assert false;
    }
  }

  lemma OpenVoucherKeeps(s: System, v: VoucherId, amount: nat)
    requires Inv(s) && Enabled(s, OpenVoucher(v, amount))
    ensures Inv(Effected(s, OpenVoucher(v, amount)))
  {
    hide Exclusive, RowOf, Outstanding, Ahead;
    NoneOutstanding(s.accepted, s.db.book, v);
    NothingOpened(s, v);
    var redisStock, dbStock := s.redis.stock[v := amount], s.db.stock[v := amount];
    TransactingStays(s.accepted, s.db.book, s.redis.stock, s.transactions, s.accepted, s.db.book, redisStock);
    forall w | w in redisStock && w !in s.adrift
      ensures StockSound(s.accepted, s.db.book, s.transactions, redisStock, dbStock, w)
    {
      assert w != v ==> StockSound(s.accepted, s.db.book, s.transactions, s.redis.stock, s.db.stock, w);
    }
  }

  lemma NothingOpened(s: System, v: VoucherId)
    requires Transacting(s.accepted, s.db.book, s.redis.stock, s.transactions) && v !in s.redis.stock
    ensures Ahead(s.transactions, v) == 0
  {
    forall i | 0 <= i < |s.transactions| ensures s.transactions[i].change.voucherId != v {
      assert ChangeSound(s.accepted, s.db.book, s.redis.stock, s.transactions[i]);
    }
    AheadAtRest(s.transactions, v);
  }

  // ---- What transactions have changed in Redis alone ----

  // No transaction on the voucher is under way.
  predicate AtRest(transactions: seq<Transaction>, v: VoucherId) {
    forall i | 0 <= i < |transactions| :: transactions[i].progress.Done? || transactions[i].change.voucherId != v
  }

  lemma {:induction false} AheadAtRest(transactions: seq<Transaction>, v: VoucherId)
    requires AtRest(transactions, v)
    ensures Ahead(transactions, v) == 0
    decreases |transactions|
  {
    if transactions != [] {
      AheadAtRest(transactions[..|transactions| - 1], v);
    }
  }

  lemma AheadOfMore(transactions: seq<Transaction>, t: Transaction, v: VoucherId)
    ensures Ahead(transactions + [t], v) == Ahead(transactions, v) + Part(t, v)
  {
    assert (transactions + [t])[..|transactions|] == transactions;
  }

  lemma {:induction false} AheadAfter(transactions: seq<Transaction>, i: nat, progress: Progress, v: VoucherId)
    requires i < |transactions|
    ensures Ahead(WithProgress(transactions, i, progress), v)
         == Ahead(transactions, v) - Part(transactions[i], v) + Part(transactions[i].(progress := progress), v)
    decreases |transactions|
  {
    var n := |transactions| - 1;
    var after := WithProgress(transactions, i, progress);
    if i < n {
      AheadAfter(transactions[..n], i, progress, v);
      assert after[..n] == WithProgress(transactions[..n], i, progress);
    } else {
      assert after[..n] == transactions[..n];
    }
  }

  /** Redis moves by `a`, MySQL by `b`, and the difference is what transactions are ahead by. */
  lemma StocksMove(s: System, transactions: seq<Transaction>, adrift: set<VoucherId>, v: VoucherId, a: int, b: int)
    requires Conserved(s.accepted, s.db.book, s.transactions, s.redis.stock, s.db.stock, s.adrift)
    requires s.adrift <= adrift && v in s.redis.stock && v in s.db.stock
    requires forall w | w != v :: Ahead(transactions, w) == Ahead(s.transactions, w)
    requires v in adrift
             || ((a >= 0 || s.redis.stock[v] + a >= 0) && Ahead(transactions, v) == Ahead(s.transactions, v) + a - b)
    ensures Conserved(s.accepted, s.db.book, transactions, s.redis.stock[v := s.redis.stock[v] + a],
                      s.db.stock[v := s.db.stock[v] + b], adrift)
  {
    hide Outstanding, Ahead;
    var redisStock, dbStock := s.redis.stock[v := s.redis.stock[v] + a], s.db.stock[v := s.db.stock[v] + b];
    forall w | w in redisStock && w !in adrift
      ensures StockSound(s.accepted, s.db.book, transactions, redisStock, dbStock, w)
    {
      assert StockSound(s.accepted, s.db.book, s.transactions, s.redis.stock, s.db.stock, w);
    }
  }

  // ---- The handoff relays ----

  lemma ReadKeeps(s: System, relay: RelayId, batch: seq<Purchase>)
    requires Inv(s) && Enabled(s, Read(relay, batch))
    ensures Inv(Effected(s, Read(relay, batch)))
  {
    hide Exclusive, Transacting, Conserved, RowOf;
  }

  lemma StopKeeps(s: System, relay: RelayId)
    requires Inv(s) && Enabled(s, Stop(relay))
    ensures Inv(Effected(s, Stop(relay)))
  {
    hide Exclusive, Transacting, Conserved, RowOf;
  }

  lemma CompleteKeeps(s: System, relay: RelayId)
    requires Inv(s) && Enabled(s, Complete(relay))
    ensures Inv(Effected(s, Complete(relay)))
  {
    hide Exclusive, Transacting, Conserved, RowOf;
    var s', batch := Effected(s, Complete(relay)), s.relays[relay].batch;
    assert s' == AfterComplete(s, relay);
    forall o | o in s.accepted && o !in s.table.rows ensures s.accepted[o] in s'.redis.handoff {
      assert forall p | p in batch :: p.orderId in s.table.rows;
    }
    forall o | o in s.accepted && !s.accepted[o].autoIssued && o !in s.table.rows ensures o in s'.redis.receipts {
      assert forall p | p in batch :: p.orderId in s.table.rows;
    }
  }

  // Order ids, and so event ids, tell purchases apart.
  lemma NoClash(accepted: map<OrderId, Purchase>, rows: Rows, p: Purchase, now: Time)
    requires RowsTraced(accepted, rows) && Recorded(accepted, p) && p.orderId !in rows
    ensures !Clashes(rows, EventOf(p, now))
  {
    forall o | o in rows ensures rows[o].eventId != EventOf(p, now).eventId {
      assert RowOf(rows[o], accepted[o]);
      if Decimals.Render(o) == Decimals.Render(p.orderId) {
        Decimals.RenderInjective(o, p.orderId);
      }
    }
  }

  lemma {:induction false} InsertsRecorded(
    accepted: map<OrderId, Purchase>, rows: Rows, batch: seq<Purchase>, now: Time)
    requires RowsTraced(accepted, rows) && forall i | 0 <= i < |batch| :: Recorded(accepted, batch[i])
    ensures RowsTraced(accepted, InsertRows(rows, EventsOf(batch, now)))
    ensures forall i | 0 <= i < |batch| :: batch[i].orderId in InsertRows(rows, EventsOf(batch, now))
    decreases |batch|
  {
    if batch != [] {
      var p, events := batch[0], EventsOf(batch, now);
      assert EventsOf(batch[1..], now) == events[1..];
      if p.orderId !in rows {
        NoClash(accepted, rows, p, now);
      }
      var rows1 := InsertRow(rows, events[0]);
      assert p.orderId in rows1 && RowsTraced(accepted, rows1);
      InsertsRecorded(accepted, rows1, batch[1..], now);
      InsertRowsExtends(rows1, events[1..]);
      assert forall i | 0 < i < |batch| :: batch[i] == batch[1..][i - 1];
    }
  }

  /** The insert of a handoff batch never conflicts, so nothing is ever sent to quarantine. */
  lemma InsertSucceeds(s: System, relay: RelayId, now: Time)
    requires Inv(s) && Enabled(s, Insert(relay, now))
    ensures var events := EventsOf(s.relays[relay].batch, now);
            && OutboxBatchWriter.Commit(s.table.rows, events) == Ok(InsertRows(s.table.rows, events))
  {
    var batch := s.relays[relay].batch;
    var events := EventsOf(batch, now);
    InsertsRecorded(s.accepted, s.table.rows, batch, now);
    var rows := InsertRows(s.table.rows, events);
    forall i | 0 <= i < |events| ensures Stored(rows, events[i]) {
      assert Recorded(s.accepted, batch[i]) && RowOf(rows[batch[i].orderId], batch[i]);
    }
  }

  lemma InsertedIsSound(s: System, s': System, relay: RelayId, now: Time)
    requires Traced(s) && Relaying(s) && Kept(s) && relay in s.relays
    requires var events := EventsOf(s.relays[relay].batch, now);
             s' == s.(table := InsertAll(s.table, events), relays := s.relays[relay := Inserted(s.relays[relay].batch)])
    ensures Traced(s') && Relaying(s') && Kept(s')
  {
    var batch := s.relays[relay].batch;
    var events := EventsOf(batch, now);
    InsertAllRight(s.table, events);
    InsertsRecorded(s.accepted, s.table.rows, batch, now);
    InsertRowsExtends(s.table.rows, events);
    hide RowsTraced, InsertAll, InsertRows, Valid, Recorded;
    forall o | o in s'.table.rows && s'.table.rows[o].status == Completed ensures o in s'.db.book.orders {
      if o !in s.table.rows {
        InsertRowsAdds(s.table.rows, events, o);
      }
    }
    forall m | m in s.messages ensures Once.FromOutbox(s'.table, m) {
      assert Once.FromOutbox(s.table, m);
    }
  }

  lemma InsertKeeps(s: System, relay: RelayId, now: Time)
    requires Inv(s) && Enabled(s, Insert(relay, now))
    ensures Inv(Effected(s, Insert(relay, now)))
  {
    InsertSucceeds(s, relay, now);
    hide Traced, Relaying, Kept, Transacting, Exclusive, Conserved, OutboxBatchWriter.Commit;
    InsertedIsSound(s, Effected(s, Insert(relay, now)), relay, now);
  }

  // ---- Rows, messages and orders ----

  lemma RowsStayTraced(accepted: map<OrderId, Purchase>, rows: Rows, orders: set<OrderId>, statement: Statement,
      now: Time)
    requires RowsTraced(accepted, rows)
    ensures var rows' := UpdateRows(rows, orders, statement, now);
            && RowsTraced(accepted, rows')
            && forall o | o in rows ::
                 && IdentityOf(rows'[o]) == IdentityOf(rows[o])
                 && (rows'[o].status == Completed
                     ==> rows[o].status == Completed || (statement.MarkCompleted? && o in orders))
  {
    var rows' := UpdateRows(rows, orders, statement, now);
    hide UpdateRows;
    forall o | o in rows
      ensures RowOf(rows'[o], accepted[o]) && IdentityOf(rows'[o]) == IdentityOf(rows[o])
      ensures rows'[o].status == Completed ==> rows[o].status == Completed || (statement.MarkCompleted? && o in orders)
    {
      RowUpdated(rows, orders, statement, now, o);
      assert RowOf(rows[o], accepted[o]);
      RowKeeps(rows[o], statement, now);
    }
  }

  lemma MessagesStay(t: Table, t': Table, messages: set<Consumer.Message>)
    requires t'.ids == t.ids && t'.rows.Keys == t.rows.Keys
    requires forall o | o in t.rows :: IdentityOf(t'.rows[o]) == IdentityOf(t.rows[o])
    requires forall m | m in messages :: Once.FromOutbox(t, m)
    ensures forall m | m in messages :: Once.FromOutbox(t', m)
  {
    forall m | m in messages ensures Once.FromOutbox(t', m) {
      assert Once.FromOutbox(t, m);
      assert IdentityOf(t'.rows[m.orderId]) == IdentityOf(t.rows[m.orderId]);
    }
  }

  lemma UpdatedRowsAreSound(s: System, s': System, orders: set<OrderId>, statement: Statement, now: Time)
    requires Traced(s) && Relaying(s) && Kept(s)
    requires s' == s.(db := s'.db, table := s.table.(rows := UpdateRows(s.table.rows, orders, statement, now)))
    requires OrdersTraced(s.accepted, s.table.rows, s'.db.book)
    requires forall o | o in s.db.book.orders || (statement.MarkCompleted? && o in orders) :: o in s'.db.book.orders
    ensures Traced(s') && Relaying(s') && Kept(s')
  {
    RowsStayTraced(s.accepted, s.table.rows, orders, statement, now);
    assert s'.table.rows.Keys == s.table.rows.Keys;
    MessagesStay(s.table, s'.table, s.messages);
    hide UpdateRows, RowsTraced, Once.FromOutbox, Recorded;
  }

  lemma UpdateRowKeeps(s: System, orders: set<OrderId>, statement: Statement, now: Time)
    requires Inv(s) && Enabled(s, UpdateRow(orders, statement, now))
    ensures Inv(Effected(s, UpdateRow(orders, statement, now)))
  {
    OrdersAreTraced(s);
    hide Traced, Relaying, Kept, Transacting, Exclusive, Conserved, UpdateRows, OrdersTraced;
    UpdatedRowsAreSound(s, Effected(s, UpdateRow(orders, statement, now)), orders, statement, now);
  }

  lemma OrdersAreTraced(s: System)
    requires Traced(s)
    ensures OrdersTraced(s.accepted, s.table.rows, s.db.book)
  {
  }

  lemma RowUpdated(rows: Rows, orders: set<OrderId>, statement: Statement, now: Time, o: OrderId)
    requires o in rows
    ensures UpdateRows(rows, orders, statement, now)[o] == if o in orders then Update(statement, rows[o], now)
        else rows[o]
  {
  }

  lemma RowKeeps(r: Row, statement: Statement, now: Time)
    requires Consistent(r)
    ensures var r' := Update(statement, r, now);
            && Consistent(r') && IdentityOf(r') == IdentityOf(r)
            && (r'.status == Completed ==> r.status == Completed || statement.MarkCompleted?)
  {
  }

  lemma SendKeeps(s: System, o: OrderId, withId: bool)
    requires Inv(s) && Enabled(s, Send(o, withId))
    ensures Inv(Effected(s, Send(o, withId)))
  {
    hide Exclusive, Transacting, Conserved;
  }

  function WithStatus(book: Book, o: OrderId, status: int): Book
    requires o in book.orders
  {
    book.(orders := book.orders[o := book.orders[o].(status := status)])
  }

  lemma StatusStaysSound(s: System, o: OrderId, status: int, s': System)
    requires Traced(s) && Relaying(s) && Kept(s) && o in s.db.book.orders
    requires s'.table == s.table && s'.messages == s.messages && s'.relays == s.relays && s'.accepted == s.accepted
    requires s'.redis == s.redis.(stock := s'.redis.stock, purchased := s'.redis.purchased)
    requires s'.db.book == WithStatus(s.db.book, o, status)
    ensures Traced(s') && Relaying(s') && Kept(s')
  {
    hide RowsTraced, Once.FromOutbox, Valid;
  }

  // Nothing but the stocks, the marks, the transactions and the history.
  lemma OtherwiseTheSame(s: System, s': System)
    requires Traced(s) && Relaying(s) && Kept(s)
    requires s'.table == s.table && s'.messages == s.messages && s'.relays == s.relays && s'.accepted == s.accepted
    requires s'.redis == s.redis.(stock := s'.redis.stock, purchased := s'.redis.purchased)
    requires s'.db.book == s.db.book
    ensures Traced(s') && Relaying(s') && Kept(s')
  {
    hide RowsTraced, OrdersTraced, Once.FromOutbox, Valid, PhaseSound;
  }

  lemma OutstandingStays(accepted: map<OrderId, Purchase>, book: Book, o: OrderId, status: int, v: VoucherId)
    requires o in book.orders
    ensures Outstanding(accepted, WithStatus(book, o, status), v) == Outstanding(accepted, book, v)
  {
  }

  lemma StatusConserves(s: System, o: OrderId, status: int)
    requires o in s.db.book.orders
    requires Conserved(s.accepted, s.db.book, s.transactions, s.redis.stock, s.db.stock, s.adrift)
    ensures Conserved(s.accepted, WithStatus(s.db.book, o, status), s.transactions, s.redis.stock, s.db.stock, s.adrift)
  {
    hide Outstanding, Ahead;
    var book := WithStatus(s.db.book, o, status);
    forall v | v in s.redis.stock && v !in s.adrift
      ensures StockSound(s.accepted, book, s.transactions, s.redis.stock, s.db.stock, v)
    {
      assert StockSound(s.accepted, s.db.book, s.transactions, s.redis.stock, s.db.stock, v);
      OutstandingStays(s.accepted, s.db.book, o, status, v);
    }
  }

  /** As long as no order becomes settled, marks need not become more. */
  lemma ExclusiveStays(s: System, book: Book, transactions: seq<Transaction>)
    requires Exclusive(s.accepted, s.db.book, s.transactions, s.redis.purchased, s.doubled)
    requires forall o | Settled(s.accepted, book, transactions, o) :: Settled(s.accepted, s.db.book, s.transactions, o)
    ensures Exclusive(s.accepted, book, transactions, s.redis.purchased, s.doubled)
  {
    forall b: (VoucherId, UserId) | b !in s.doubled
      ensures BuyerSound(s.accepted, book, transactions, s.redis.purchased, b)
    {
      assert BuyerSound(s.accepted, s.db.book, s.transactions, s.redis.purchased, b);
      assert forall o | Settled(s.accepted, book, transactions, o) :: o in s.accepted;
      hide Settled;
    }
  }

  lemma ChangeStatusKeeps(s: System, o: OrderId, status: int)
    requires Inv(s) && Enabled(s, ChangeStatus(o, status))
    ensures Inv(Effected(s, ChangeStatus(o, status)))
  {
    var s' := Effected(s, ChangeStatus(o, status));
    hide Traced, Relaying, Kept, Transacting, Exclusive, Conserved, InDoubt;
    StatusStaysSound(s, o, status, s');
    StatusConserves(s, o, status);
    ExclusiveStays(s, s'.db.book, s.transactions);
    TransactingStays(s.accepted, s.db.book, s.redis.stock, s.transactions, s.accepted, s'.db.book, s.redis.stock);
  }

  // ---- Cancellations and adjustments ----

  // Who is in doubt after a transaction was added, and after one made progress.
  lemma DoubtOfMore(transactions: seq<Transaction>, t: Transaction, o: OrderId)
    ensures InDoubt(transactions + [t], o) <==> InDoubt(transactions, o) || Cancels(t, o)
  {
    var more := transactions + [t];
    assert more[|transactions|] == t;
    assert forall i | 0 <= i < |transactions| :: more[i] == transactions[i];
  }

  lemma DoubtAfter(transactions: seq<Transaction>, i: nat, progress: Progress, o: OrderId)
    requires i < |transactions|
    requires transactions[i].change.CancelOrder? ==> transactions[i].change.orderId != o
    ensures InDoubt(WithProgress(transactions, i, progress), o) <==> InDoubt(transactions, o)
  {
    var after := WithProgress(transactions, i, progress);
    assert forall k | 0 <= k < |transactions| :: Cancels(after[k], o) <==> Cancels(transactions[k], o);
  }

  lemma TransactingMore(s: System, t: Transaction, redisStock: map<VoucherId, int>)
    requires Transacting(s.accepted, s.db.book, s.redis.stock, s.transactions) && s.redis.stock.Keys == redisStock.Keys
    requires ChangeSound(s.accepted, s.db.book, redisStock, t) && !Locked(s, t.change.voucherId)
    ensures Transacting(s.accepted, s.db.book, redisStock, s.transactions + [t])
  {
    TransactingStays(s.accepted, s.db.book, s.redis.stock, s.transactions, s.accepted, s.db.book, redisStock);
    hide ChangeSound;
  }

  lemma BeginAdjustKeeps(s: System, v: VoucherId, change: int)
    requires Inv(s) && Enabled(s, BeginAdjust(v, change))
    ensures Inv(Effected(s, BeginAdjust(v, change)))
  {
    hide Traced, Relaying, Kept, Transacting, Exclusive, Conserved, InDoubt, Ahead, Locked;
    var s', t := Effected(s, BeginAdjust(v, change)), Transaction(AdjustStock(v, change), Open);
    assert ChangeSound(s.accepted, s.db.book, s'.redis.stock, t);
    assert s'.redis.stock.Keys == s.redis.stock.Keys;
    TransactingMore(s, t, s'.redis.stock);
    forall w ensures Ahead(s'.transactions, w) == Ahead(s.transactions, w) + Part(t, w) {
      AheadOfMore(s.transactions, t, w);
    }
    StocksMove(s, s'.transactions, s.adrift, v, change, 0);
    assert s.db.stock[v := s.db.stock[v] + 0] == s.db.stock;
    forall o ensures InDoubt(s'.transactions, o) <==> InDoubt(s.transactions, o) {
      DoubtOfMore(s.transactions, t, o);
    }
    ExclusiveStays(s, s.db.book, s'.transactions);
    OtherwiseTheSame(s, s');
  }

  lemma BeginCancelExclusive(s: System, o: OrderId, transactions: seq<Transaction>)
    requires Exclusive(s.accepted, s.db.book, s.transactions, s.redis.purchased, s.doubled) && o in s.accepted
    requires forall x :: InDoubt(transactions, x) <==> InDoubt(s.transactions, x) || x == o
    ensures var b := Buyer(s.accepted[o]);
            Exclusive(s.accepted, s.db.book, transactions, s.redis.purchased - {b},
                      s.doubled + if HasAnother(s, o) then {b} else {})
  {
    hide InDoubt;
    var b, purchased := Buyer(s.accepted[o]), s.redis.purchased - {Buyer(s.accepted[o])};
    forall c: (VoucherId, UserId) | c !in s.doubled && (c == b ==> !HasAnother(s, o))
      ensures BuyerSound(s.accepted, s.db.book, transactions, purchased, c)
    {
      assert BuyerSound(s.accepted, s.db.book, s.transactions, s.redis.purchased, c);
      forall x | Settled(s.accepted, s.db.book, transactions, x)
        ensures Settled(s.accepted, s.db.book, s.transactions, x) && x != o
      {
      }
    }
  }

  lemma BeginCancelKeeps(s: System, o: OrderId)
    requires Inv(s) && Enabled(s, BeginCancel(o))
    ensures Inv(Apply(s, BeginCancel(o)))
  {
    hide SelectOrderId, RowsTraced, InDoubt, Ahead, Locked;
    OrdersAreTraced(s);
    var s', r := Apply(s, BeginCancel(o)), s.db.book.orders[o];
    var v, t := r.voucherId, Transaction(CancelOrder(o, r.voucherId, r.userId), Open);
    assert Buyer(s.accepted[o]) == (v, r.userId);
    assert s'.redis.stock.Keys == s.redis.stock.Keys && ChangeSound(s.accepted, s.db.book, s'.redis.stock, t);
    hide Traced, Relaying, Kept, Transacting, Exclusive, Conserved, HasAnother, ChangeSound;
    TransactingMore(s, t, s'.redis.stock);
    forall w ensures Ahead(s'.transactions, w) == Ahead(s.transactions, w) + Part(t, w) {
      AheadOfMore(s.transactions, t, w);
    }
    StocksMove(s, s'.transactions, s'.adrift, v, 1, 0);
    assert s.db.stock[v := s.db.stock[v] + 0] == s.db.stock;
    forall x ensures InDoubt(s'.transactions, x) <==> InDoubt(s.transactions, x) || x == o {
      DoubtOfMore(s.transactions, t, x);
    }
    BeginCancelExclusive(s, o, s'.transactions);
    OtherwiseTheSame(s, s');
  }

  lemma TransactingAfter(s: System, i: nat, progress: Progress, redisStock: map<VoucherId, int>)
    requires Transacting(s.accepted, s.db.book, s.redis.stock, s.transactions) && s.redis.stock.Keys == redisStock.Keys
    requires i < |s.transactions| && !progress.Open?
    ensures Transacting(s.accepted, s.db.book, redisStock, WithProgress(s.transactions, i, progress))
  {
    var after := WithProgress(s.transactions, i, progress);
    forall k | 0 <= k < |after| ensures ChangeSound(s.accepted, s.db.book, redisStock, after[k]) {
      assert ChangeSound(s.accepted, s.db.book, s.redis.stock, s.transactions[k]);
    }
  }

  lemma RollBackKeeps(s: System, i: nat)
    requires Inv(s) && Enabled(s, RollBack(i))
    ensures Inv(Effected(s, RollBack(i)))
  {
    hide Traced, Relaying, Kept, Transacting, Exclusive, Conserved, Ahead, Settled;
    var s' := Effected(s, RollBack(i));
    TransactingAfter(s, i, RolledBack, s.redis.stock);
    forall w ensures Ahead(s'.transactions, w) == Ahead(s.transactions, w) {
      AheadAfter(s.transactions, i, RolledBack, w);
    }
    var v := s.transactions[i].change.voucherId;
    StocksMove(s, s'.transactions, s.adrift, v, 0, 0);
    StaysWithNothing(s.redis.stock, v);
    StaysWithNothing(s.db.stock, v);
    forall o ensures Settled(s.accepted, s.db.book, s'.transactions, o)
        <==> Settled(s.accepted, s.db.book, s.transactions, o)
    {
      DoubtStays(s, i, o);
    }
    ExclusiveStays(s, s.db.book, s'.transactions);
    OtherwiseTheSame(s, s');
  }

  lemma DoubtStays(s: System, i: nat, o: OrderId)
    requires Has(s, i, Open)
    ensures Settled(s.accepted, s.db.book, WithProgress(s.transactions, i, RolledBack), o)
       <==> Settled(s.accepted, s.db.book, s.transactions, o)
  {
    var after := WithProgress(s.transactions, i, RolledBack);
    assert forall k | 0 <= k < |after| :: Cancels(after[k], o) <==> Cancels(s.transactions[k], o);
  }

  lemma StaysWithNothing(stock: map<VoucherId, int>, v: VoucherId)
    requires v in stock
    ensures stock[v := stock[v] + 0] == stock
  {
  }

  lemma TransactingCommit(s: System, i: nat)
    requires Transacting(s.accepted, s.db.book, s.redis.stock, s.transactions) && Enabled(s, Commit(i))
    ensures Transacting(s.accepted, Effected(s, Commit(i)).db.book, s.redis.stock, WithProgress(s.transactions, i, Done))
  {
    var s', after := Effected(s, Commit(i)), WithProgress(s.transactions, i, Done);
    forall k | 0 <= k < |after| ensures ChangeSound(s.accepted, s'.db.book, s.redis.stock, after[k]) {
      assert ChangeSound(s.accepted, s.db.book, s.redis.stock, s.transactions[k]);
      assert ChangeSound(s.accepted, s.db.book, s.redis.stock, s.transactions[i]);
    }
  }

  lemma CommitConserves(s: System, i: nat)
    requires Conserved(s.accepted, s.db.book, s.transactions, s.redis.stock, s.db.stock, s.adrift)
    requires Enabled(s, Commit(i))
    ensures var s' := Effected(s, Commit(i));
            Conserved(s.accepted, s'.db.book, s'.transactions, s.redis.stock, s'.db.stock, s.adrift)
  {
    hide Conserved, Ahead;
    var c, after := s.transactions[i].change, WithProgress(s.transactions, i, Done);
    forall w ensures Ahead(after, w) == Ahead(s.transactions, w) - Part(s.transactions[i], w) {
      AheadAfter(s.transactions, i, Done, w);
    }
    StocksMove(s, after, s.adrift, c.voucherId, 0, Amount(c));
    StaysWithNothing(s.redis.stock, c.voucherId);
    if c.CancelOrder? {
      var dbStock := s.db.stock[c.voucherId := s.db.stock[c.voucherId] + 1];
      StatusConserves(s.(db := s.db.(stock := dbStock), transactions := after), c.orderId, CANCELLED);
    }
  }

  lemma CommitKeeps(s: System, i: nat)
    requires Inv(s) && Enabled(s, Commit(i))
    ensures Inv(Effected(s, Commit(i)))
  {
    var s', c := Effected(s, Commit(i)), s.transactions[i].change;
    TransactingCommit(s, i);
    CommitConserves(s, i);
    hide Traced, Relaying, Kept, Transacting, Exclusive, Conserved, Ahead, InDoubt;
    forall x | Settled(s.accepted, s'.db.book, s'.transactions, x)
      ensures Settled(s.accepted, s.db.book, s.transactions, x)
    {
      DoubtAfter(s.transactions, i, Done, x);
    }
    ExclusiveStays(s, s'.db.book, s'.transactions);
    if c.CancelOrder? {
      StatusStaysSound(s, c.orderId, CANCELLED, s');
    } else {
      OtherwiseTheSame(s, s');
    }
  }

  lemma CompensateExclusive(s: System, i: nat)
    requires Exclusive(s.accepted, s.db.book, s.transactions, s.redis.purchased, s.doubled)
    requires Enabled(s, Compensate(i)) && s.transactions[i].change.CancelOrder?
    requires ChangeSound(s.accepted, s.db.book, s.redis.stock, s.transactions[i])
    ensures var s' := Apply(s, Compensate(i));
            Exclusive(s.accepted, s.db.book, s'.transactions, s'.redis.purchased, s'.doubled)
  {
    var s', c := Apply(s, Compensate(i)), s.transactions[i].change;
    forall b: (VoucherId, UserId) | b !in s'.doubled
      ensures BuyerSound(s.accepted, s.db.book, s'.transactions, s'.redis.purchased, b)
    {
      assert BuyerSound(s.accepted, s.db.book, s.transactions, s.redis.purchased, b);
      forall x | Settled(s.accepted, s.db.book, s'.transactions, x) && x != c.orderId
        ensures Settled(s.accepted, s.db.book, s.transactions, x)
      {
        DoubtAfter(s.transactions, i, Done, x);
      }
      hide InDoubt;
    }
  }

  lemma CompensateConserves(s: System, i: nat)
    requires Conserved(s.accepted, s.db.book, s.transactions, s.redis.stock, s.db.stock, s.adrift)
    requires Enabled(s, Compensate(i))
    ensures var s' := Apply(s, Compensate(i));
            Conserved(s.accepted, s.db.book, s'.transactions, s'.redis.stock, s.db.stock, s'.adrift)
  {
    hide Conserved, Ahead, Doubling;
    var s', c := Apply(s, Compensate(i)), s.transactions[i].change;
    forall w ensures Ahead(s'.transactions, w) == Ahead(s.transactions, w) - Part(s.transactions[i], w) {
      AheadAfter(s.transactions, i, Done, w);
    }
    var taken := if c.CancelOrder? && s.redis.stock[c.voucherId] <= 0 then 0 else Amount(c);
    StocksMove(s, s'.transactions, s'.adrift, c.voucherId, -taken, 0);
    StaysWithNothing(s.db.stock, c.voucherId);
    StaysWithNothing(s.redis.stock, c.voucherId);
  }

  lemma CompensateKeeps(s: System, i: nat)
    requires Inv(s) && Enabled(s, Compensate(i))
    ensures Inv(Apply(s, Compensate(i)))
  {
    var s', c := Apply(s, Compensate(i)), s.transactions[i].change;
    assert s'.redis.stock.Keys == s.redis.stock.Keys;
    assert ChangeSound(s.accepted, s.db.book, s.redis.stock, s.transactions[i]);
    hide Traced, Relaying, Kept, Transacting, Exclusive, Conserved, Ahead, InDoubt, Drifting, Doubling;
    CompensateConserves(s, i);
    TransactingAfter(s, i, Done, s'.redis.stock);
    if c.CancelOrder? {
      CompensateExclusive(s, i);
    } else {
      forall x | Settled(s.accepted, s.db.book, s'.transactions, x)
        ensures Settled(s.accepted, s.db.book, s.transactions, x)
      {
        DoubtAfter(s.transactions, i, Done, x);
      }
      ExclusiveStays(s, s.db.book, s'.transactions);
      MoreDoubled(s.accepted, s.db.book, s'.transactions, s.redis.purchased, s.doubled, s'.doubled);
    }
    OtherwiseTheSame(s, s');
  }

  lemma MoreDoubled(
    accepted: map<OrderId, Purchase>, book: Book, transactions: seq<Transaction>, purchased: set<(VoucherId, UserId)>,
    doubled: set<(VoucherId, UserId)>, more: set<(VoucherId, UserId)>)
    requires Exclusive(accepted, book, transactions, purchased, doubled) && doubled <= more
    ensures Exclusive(accepted, book, transactions, purchased, more)
  {
    hide BuyerSound;
  }

  // ---- Reconciliation ----

  lemma UnpersistedAndHandoff(s: System, v: VoucherId)
    requires Inv(s)
    ensures |Unpersisted(s, v)| + |HandoffOnly(s, v)| == |Outstanding(s.accepted, s.db.book, v)|
  {
    hide Exclusive, Transacting, Conserved, Relaying;
    var ids := set p | p in HandoffOnly(s, v) :: p.orderId;
    SameCount(HandoffOnly(s, v), s.accepted);
    var rest := Unpersisted(s, v);
    forall o ensures o in Outstanding(s.accepted, s.db.book, v) <==> o in rest + ids {
      if o in Outstanding(s.accepted, s.db.book, v) && o !in s.table.rows {
        assert s.accepted[o] in HandoffOnly(s, v);
      }
      if o in s.table.rows {
        assert RowOf(s.table.rows[o], s.accepted[o]);
      }
    }
    assert Outstanding(s.accepted, s.db.book, v) == rest + ids;
    assert rest * ids == {};
  }

  lemma {:induction false} SameCount(ps: set<Purchase>, accepted: map<OrderId, Purchase>)
    requires forall p | p in ps :: Recorded(accepted, p)
    ensures |set p | p in ps :: p.orderId| == |ps|
    decreases |ps|
  {
    var ids := set p | p in ps :: p.orderId;
    if ps == {} {
      assert ids == {};
    } else {
      var p := SomeElement(ps);
      SameCount(ps - {p}, accepted);
      assert ids == (set q | q in ps - {p} :: q.orderId) + {p.orderId};
    }
  }

  /** Reconciling a voucher computes the stock Redis has without what transactions under way have put
      there, and never less than nothing. */
  lemma ReconcileFindsStock(s: System, v: VoucherId)
    requires Inv(s) && v in s.db.stock && v !in s.adrift
    ensures v in s.redis.stock
    ensures var left := s.redis.stock[v] - Ahead(s.transactions, v);
            ExpectedStock(s, v) == if left < 0 then 0 else left
  {
    UnpersistedAndHandoff(s, v);
    assert StockSound(s.accepted, s.db.book, s.transactions, s.redis.stock, s.db.stock, v);
  }

  // The user has an order for the voucher, or is about to get one.
  ghost predicate LiveBuyer(s: System, v: VoucherId, u: UserId) {
    exists o | o in s.accepted ::
      Live(s.accepted, s.db.book, o) && s.accepted[o].voucherId == v && s.accepted[o].userId == u
  }

  /** Reconciling marks every buyer of a live order. */
  lemma ReconcileMarksBuyers(s: System, v: VoucherId, u: UserId)
    requires Inv(s) && LiveBuyer(s, v, u)
    ensures u in RebuiltUsers(s, v)
  {
    hide Exclusive, Transacting, Conserved, Relaying;
    var o :| o in s.accepted && Live(s.accepted, s.db.book, o) && s.accepted[o].voucherId == v
        && s.accepted[o].userId == u;
    if o in s.table.rows {
      assert RowOf(s.table.rows[o], s.accepted[o]);
    }
    if o in s.db.book.orders {
      assert u in ActiveUsers(s.db.book, v);
    } else if o in s.table.rows {
      assert o in Unpersisted(s, v);
    }
  }

  lemma RebuiltIsLiveOrHandoff(s: System, v: VoucherId, u: UserId)
    requires Inv(s) && u in RebuiltUsers(s, v)
    ensures LiveBuyer(s, v, u) || exists p | p in s.redis.handoff :: p.voucherId == v && p.userId == u
  {
    hide Exclusive, Transacting, Conserved, Relaying;
    if u in ActiveUsers(s.db.book, v) {
      var o :| o in s.db.book.orders && s.db.book.orders[o].voucherId == v && Active(s.db.book.orders[o])
               && s.db.book.orders[o].userId == u;
      assert Live(s.accepted, s.db.book, o);
    } else if o :| o in Unpersisted(s, v) && s.table.rows[o].userId == u {
      assert RowOf(s.table.rows[o], s.accepted[o]);
      assert Live(s.accepted, s.db.book, o);
    }
  }

  /** It marks nobody else exactly if every member left in the handoff set is of such a buyer; what can
      be left over is the member of an order that was written and cancelled in the meantime. */
  lemma ReconcileMarksOnlyBuyers(s: System, v: VoucherId)
    requires Inv(s)
    ensures (forall u | u in RebuiltUsers(s, v) :: LiveBuyer(s, v, u))
       <==> forall p | p in s.redis.handoff && p.voucherId == v :: LiveBuyer(s, v, p.userId)
    ensures forall p | p in s.redis.handoff && p.voucherId == v && !LiveBuyer(s, v, p.userId) ::
              p.orderId in s.db.book.orders && !Active(s.db.book.orders[p.orderId])
  {
    forall u | u in RebuiltUsers(s, v)
      ensures LiveBuyer(s, v, u) || exists p | p in s.redis.handoff :: p.voucherId == v && p.userId == u
    {
      RebuiltIsLiveOrHandoff(s, v, u);
    }
    hide Exclusive, Transacting, Conserved, Relaying;
    assert forall p | p in s.redis.handoff && p.voucherId == v :: p.userId in RebuiltUsers(s, v);
    forall p | p in s.redis.handoff && p.voucherId == v && !LiveBuyer(s, v, p.userId)
      ensures p.orderId in s.db.book.orders && !Active(s.db.book.orders[p.orderId])
    {
      assert Recorded(s.accepted, p);
      assert !Live(s.accepted, s.db.book, p.orderId);
    }
  }

  lemma ReconcileFindsTheSame(s: System, v: VoucherId)
    requires Inv(s) && Enabled(s, Reconcile(v)) && v !in s.adrift
    ensures v in s.redis.stock
    ensures Drifting(s, Reconcile(v)) == {} <==> ExpectedStock(s, v) == s.redis.stock[v]
  {
    ReconcileFindsStock(s, v);
    assert StockSound(s.accepted, s.db.book, s.transactions, s.redis.stock, s.db.stock, v);
    hide Inv, StockSound, ExpectedStock, Ahead;
  }

  lemma ReconcileConserves(s: System, v: VoucherId)
    requires Inv(s) && Enabled(s, Reconcile(v))
    ensures Conserved(s.accepted, s.db.book, s.transactions, AfterReconcile(s, v).redis.stock, s.db.stock,
                      s.adrift + Drifting(s, Reconcile(v)))
  {
    hide Inv, Conserved, ExpectedStock, RebuiltUsers, Ahead, Exclusive, Transacting;
    ConservedInInv(s);
    var adrift := s.adrift + Drifting(s, Reconcile(v));
    if v !in adrift {
      ReconcileFindsTheSame(s, v);
    }
    hide Drifting;
    StocksMove(s, s.transactions, adrift, v, ExpectedStock(s, v) - s.redis.stock[v], 0);
    StaysWithNothing(s.db.stock, v);
  }

  lemma ConservedInInv(s: System)
    requires Inv(s)
    ensures Conserved(s.accepted, s.db.book, s.transactions, s.redis.stock, s.db.stock, s.adrift)
    ensures Exclusive(s.accepted, s.db.book, s.transactions, s.redis.purchased, s.doubled)
    ensures Transacting(s.accepted, s.db.book, s.redis.stock, s.transactions)
    ensures s.redis.stock.Keys == s.db.stock.Keys
  {
  }

  lemma ReconcileExclusive(s: System, v: VoucherId)
    requires Inv(s) && Enabled(s, Reconcile(v))
    ensures Exclusive(s.accepted, s.db.book, s.transactions, AfterReconcile(s, v).redis.purchased, s.doubled)
  {
    ConservedInInv(s);
    hide Inv, InDoubt, RebuiltUsers, ExpectedStock;
    var purchased := AfterReconcile(s, v).redis.purchased;
    forall b: (VoucherId, UserId) | b !in s.doubled
      ensures BuyerSound(s.accepted, s.db.book, s.transactions, purchased, b)
    {
      assert BuyerSound(s.accepted, s.db.book, s.transactions, s.redis.purchased, b);
      forall o | Settled(s.accepted, s.db.book, s.transactions, o) && Buyer(s.accepted[o]) == b ensures b in purchased {
        if b.0 == v {
          assert LiveBuyer(s, v, b.1);
          ReconcileMarksBuyers(s, v, b.1);
        }
      }
    }
  }

  lemma ReconcileKeeps(s: System, v: VoucherId)
    requires Inv(s) && Enabled(s, Reconcile(v))
    ensures Inv(Apply(s, Reconcile(v)))
  {
    var s' := Apply(s, Reconcile(v));
    ReconcileConserves(s, v);
    ReconcileExclusive(s, v);
    ConservedInInv(s);
    assert s'.redis.stock.Keys == s.redis.stock.Keys;
    hide Traced, Relaying, Kept, Transacting, Exclusive, Conserved, Ahead, Drifting, ExpectedStock, RebuiltUsers;
    TransactingStays(s.accepted, s.db.book, s.redis.stock, s.transactions, s.accepted, s.db.book, s'.redis.stock);
    assert s'.doubled == s.doubled;
    OtherwiseTheSame(s, s');
  }

  /** Reconciling leaves marked exactly the buyers of live orders of the voucher, if every handoff member is
      of one; and the marks of other vouchers as they were. */
  lemma ReconcileMarksExactly(s: System, v: VoucherId, w: VoucherId, u: UserId)
    requires Inv(s) && Enabled(s, Reconcile(v))
    requires forall p | p in s.redis.handoff && p.voucherId == v :: LiveBuyer(s, v, p.userId)
    ensures (w, u) in Apply(s, Reconcile(v)).redis.purchased
       <==> if w == v then LiveBuyer(s, v, u) else (w, u) in s.redis.purchased
  {
    ReconcileMarksOnlyBuyers(s, v);
    if LiveBuyer(s, v, u) {
      ReconcileMarksBuyers(s, v, u);
    }
    hide Inv, LiveBuyer, RebuiltUsers, ExpectedStock, Drifting, Doubling;
  }

  // ---- Consumption ----

  function Of(s: System): Consumer.State {
    Consumer.State(s.db, s.table)
  }

  lemma RowIdentities(s: System)
    requires RowsTraced(s.accepted, s.table.rows)
    ensures forall o | o in s.table.rows ::
              s.table.rows[o].userId == s.accepted[o].userId && s.table.rows[o].voucherId == s.accepted[o].voucherId
  {
    forall o | o in s.table.rows
      ensures s.table.rows[o].userId == s.accepted[o].userId && s.table.rows[o].voucherId == s.accepted[o].voucherId
    {
      assert RowOf(s.table.rows[o], s.accepted[o]);
    }
  }

  // Nothing is under way on the voucher, and nothing has gone wrong with it or its buyers.
  ghost predicate Calm(s: System, v: VoucherId) {
    AtRest(s.transactions, v) && v !in s.adrift && forall b | b in s.doubled :: b.0 != v
  }

  lemma DueIsOutstanding(s: System, v: VoucherId)
    requires Inv(s) && Calm(s, v)
    ensures var due := Once.Due(Once.ViewOf(Of(s)), Once.Identities(s.table), s.table.rows.Keys, v);
            due != {} ==> Enough(s.db.stock, v, |due|)
  {
    RowIdentities(s);
    AheadAtRest(s.transactions, v);
    var due := Once.Due(Once.ViewOf(Of(s)), Once.Identities(s.table), s.table.rows.Keys, v);
    var all := Outstanding(s.accepted, s.db.book, v);
    forall o | o in due ensures o in all {
    }
    assert due <= all;
    if due != {} {
      var o := SomeElement(due);
      assert o in s.accepted && s.accepted[o].voucherId == v;
      assert StockSound(s.accepted, s.db.book, s.transactions, s.redis.stock, s.db.stock, v);
      Once.SubsetEnough(s.db.stock, v, due, all);
    }
  }

  lemma LiveIsSettled(s: System, o: OrderId, v: VoucherId)
    requires Transacting(s.accepted, s.db.book, s.redis.stock, s.transactions) && AtRest(s.transactions, v)
    requires Live(s.accepted, s.db.book, o) && s.accepted[o].voucherId == v
    ensures Settled(s.accepted, s.db.book, s.transactions, o)
  {
    forall i | 0 <= i < |s.transactions| ensures !Cancels(s.transactions[i], o) {
      assert ChangeSound(s.accepted, s.db.book, s.redis.stock, s.transactions[i]);
    }
  }

  lemma OneLiveAtRest(s: System, v: VoucherId, u: UserId, o: OrderId, o': OrderId)
    requires Inv(s) && Calm(s, v) && Once.Live(Of(s), o, u, v) && Once.Live(Of(s), o', u, v)
    ensures o == o'
  {
    RowIdentities(s);
    assert Live(s.accepted, s.db.book, o) && Live(s.accepted, s.db.book, o');
    LiveIsSettled(s, o, v);
    LiveIsSettled(s, o', v);
    assert BuyerSound(s.accepted, s.db.book, s.transactions, s.redis.purchased, (v, u));
  }

  /** Whatever the pipeline has done, the consumer finds what it relies on for every calm voucher: at most
      one live order a buyer, and stock for everything that is waiting in the outbox. */
  lemma PipelineIsReady(s: System, vouchers: set<VoucherId>)
    requires Inv(s) && forall v | v in vouchers :: Calm(s, v)
    ensures Once.Ready(Of(s), vouchers)
  {
    PipelineMatches(s);
    hide Inv, Calm, Once.Live, Once.Due;
    forall o, o', u, v | v in vouchers && Once.Live(Of(s), o, u, v) && Once.Live(Of(s), o', u, v) ensures o == o' {
      OneLiveAtRest(s, v, u, o, o');
    }
    forall v | v in vouchers
        && Once.Due(Once.ViewOf(Of(s)), Once.Identities(s.table), s.table.rows.Keys, v) != {}
      ensures Enough(s.db.stock, v, |Once.Due(Once.ViewOf(Of(s)), Once.Identities(s.table), s.table.rows.Keys, v)|)
    {
      DueIsOutstanding(s, v);
    }
  }

  lemma PipelineMatches(s: System)
    requires Inv(s)
    ensures Once.RowsMatch(Of(s))
  {
    hide Conserved, Exclusive, Transacting;
    RowIdentities(s);
  }

  lemma ConsumeDelivers(s: System, received: seq<Consumer.Message>, now: Time)
    requires Inv(s) && Enabled(s, Consume(received, now))
    ensures var s' := Effected(s, Consume(received, now));
            var given := Consumer.OrderIdsOf(received);
            && Once.ViewOf(Of(s')) == Once.Deliver(Once.ViewOf(Of(s)), Once.Identities(s.table), given)
            && s'.table == s.table.(rows := UpdateRows(s.table.rows, given, MarkCompleted, now))
            && Valid(s'.table)
            && (forall o | o in given :: o in s.table.rows && (o in s.db.book.orders ==> Active(s.db.book.orders[o])))
  {
    PipelineMatches(s);
    assert forall m | m in received :: Once.FromOutbox(s.table, m);
    Once.ConsumedIsDelivered(Of(s), received, now);
    forall o | o in Consumer.OrderIdsOf(received)
      ensures o in s.table.rows && (o in s.db.book.orders ==> Active(s.db.book.orders[o]))
    {
      var i :| 0 <= i < |received| && received[i].orderId == o;
      assert received[i] in received && Once.FromOutbox(s.table, received[i]);
    }
  }

  lemma DeliveryConserves(
    accepted: map<OrderId, Purchase>, w: Once.View, who: map<OrderId, Identity>, given: set<OrderId>, book: Book,
        book': Book,
    v: VoucherId)
    requires w.orders == book.orders && book'.orders == Once.Deliver(w, who, given).orders
    requires forall o | o in who :: o in accepted && who[o].voucherId == accepted[o].voucherId
    ensures |Outstanding(accepted, book', v)| == |Outstanding(accepted, book, v)| - |Once.Due(w, who, given, v)|
  {
    var due, later := Once.Due(w, who, given, v), Outstanding(accepted, book', v);
    assert book'.orders.Keys == book.orders.Keys + given * who.Keys;
    forall o ensures o in Outstanding(accepted, book, v) <==> o in later || o in due {
    }
    assert Outstanding(accepted, book, v) == later + due;
    assert later * due == {};
  }

  lemma StocksDelivered(s: System, w: Once.View, who: map<OrderId, Identity>, given: set<OrderId>, book': Book)
    requires w.orders == s.db.book.orders && w.stock == s.db.stock
    requires book'.orders == Once.Deliver(w, who, given).orders
    requires forall o | o in who :: o in s.accepted && who[o].voucherId == s.accepted[o].voucherId
    requires Conserved(s.accepted, s.db.book, s.transactions, s.redis.stock, s.db.stock, s.adrift)
    ensures Conserved(s.accepted, book', s.transactions, s.redis.stock, Once.Deliver(w, who, given).stock, s.adrift)
  {
    hide Outstanding, Once.Due, Ahead;
    var dbStock := Once.Deliver(w, who, given).stock;
    assert dbStock.Keys == s.db.stock.Keys;
    forall v | v in s.redis.stock && v !in s.adrift
      ensures StockSound(s.accepted, book', s.transactions, s.redis.stock, dbStock, v)
    {
      assert StockSound(s.accepted, s.db.book, s.transactions, s.redis.stock, s.db.stock, v);
      DeliveryConserves(s.accepted, w, who, given, s.db.book, book', v);
    }
  }

  lemma ConsumeConserves(s: System, received: seq<Consumer.Message>, now: Time)
    requires Inv(s) && Enabled(s, Consume(received, now))
    ensures var s' := Effected(s, Consume(received, now));
            Conserved(s.accepted, s'.db.book, s.transactions, s.redis.stock, s'.db.stock, s.adrift)
  {
    var s', given := Effected(s, Consume(received, now)), Consumer.OrderIdsOf(received);
    ConsumeDelivers(s, received, now);
    RowIdentities(s);
    ConservedInInv(s);
    hide Exclusive, Relaying, Kept, Transacting, Conserved, Once.Deliver, Consumer.Consume, UpdateRows;
    var w' := Once.ViewOf(Of(s'));
    assert w'.orders == s'.db.book.orders && w'.stock == s'.db.stock;
    StocksDelivered(s, Once.ViewOf(Of(s)), Once.Identities(s.table), given, s'.db.book);
  }

  lemma ConsumeKeepsOrders(s: System, received: seq<Consumer.Message>, now: Time)
    requires Inv(s) && Enabled(s, Consume(received, now))
    ensures var s' := Effected(s, Consume(received, now));
            && OrdersTraced(s.accepted, s.table.rows, s'.db.book)
            && (forall o :: Live(s.accepted, s'.db.book, o) <==> Live(s.accepted, s.db.book, o))
            && (forall o | o in s.db.book.orders || o in Consumer.OrderIdsOf(received) :: o in s'.db.book.orders)
            && (forall o | o in s.db.book.orders :: s'.db.book.orders[o] == s.db.book.orders[o])
  {
    var s', given := Effected(s, Consume(received, now)), Consumer.OrderIdsOf(received);
    var w, who := Once.ViewOf(Of(s)), Once.Identities(s.table);
    ConsumeDelivers(s, received, now);
    RowIdentities(s);
    hide Exclusive, Relaying, Kept, Transacting, Conserved, Once.Due, Consumer.Consume;
    var w' := Once.ViewOf(Of(s'));
    assert w'.orders == Once.Deliver(w, who, given).orders;
  }

  lemma ConsumeKeeps(s: System, received: seq<Consumer.Message>, now: Time)
    requires Inv(s) && Enabled(s, Consume(received, now))
    ensures Inv(Effected(s, Consume(received, now)))
  {
    var s', given := Effected(s, Consume(received, now)), Consumer.OrderIdsOf(received);
    ConsumeDelivers(s, received, now);
    ConsumeConserves(s, received, now);
    ConsumeKeepsOrders(s, received, now);
    hide Traced, Relaying, Kept, Transacting, Exclusive, Conserved, UpdateRows, Once.Deliver, Consumer.Consume, Live,
        OrdersTraced, Valid, InDoubt;
    UpdatedRowsAreSound(s, s', given, MarkCompleted, now);
    ExclusiveStays(s, s'.db.book, s.transactions);
    TransactingStays(s.accepted, s.db.book, s.redis.stock, s.transactions, s.accepted, s'.db.book, s.redis.stock);
  }

  // ---- Every run ----

  // History that grows makes no new claims.
  lemma HistoryGrows(s: System, adrift: set<VoucherId>, doubled: set<(VoucherId, UserId)>)
    requires Inv(s) && s.adrift <= adrift && s.doubled <= doubled
    ensures Inv(s.(adrift := adrift, doubled := doubled))
  {
    MoreDoubled(s.accepted, s.db.book, s.transactions, s.redis.purchased, s.doubled, doubled);
    hide RowsTraced, OrdersTraced, PhaseSound, StockSound, Exclusive, ChangeSound, Once.FromOutbox, Valid;
  }

  lemma EffectKeepsHistory(s: System, step: Step)
    requires Enabled(s, step)
    ensures Effected(s, step).adrift == s.adrift && Effected(s, step).doubled == s.doubled
  {
  }

  lemma EffectKeeps(s: System, step: Step)
    requires Inv(s) && Enabled(s, step) && !(step.BeginCancel? || step.Compensate? || step.Reconcile?)
    ensures Inv(Effected(s, step))
  {
    hide Inv, Effected, Enabled;
    match step
    case OpenVoucher(v, amount) => OpenVoucherKeeps(s, v, amount);
    case Accept(p) => AcceptKeeps(s, p);
    case Read(relay, batch) => ReadKeeps(s, relay, batch);
    case Insert(relay, now) => InsertKeeps(s, relay, now);
    case Complete(relay) => CompleteKeeps(s, relay);
    case Split(relay, left) => NeverConflicted(s, relay);
    case Quarantine(relay) => NeverConflicted(s, relay);
    case Stop(relay) => StopKeeps(s, relay);
    case UpdateRow(orders, statement, now) => UpdateRowKeeps(s, orders, statement, now);
    case Send(o, withId) => SendKeeps(s, o, withId);
    case Consume(received, now) => ConsumeKeeps(s, received, now);
    case BeginAdjust(v, change) => BeginAdjustKeeps(s, v, change);
    case Commit(i) => CommitKeeps(s, i);
    case RollBack(i) => RollBackKeeps(s, i);
    case ChangeStatus(o, status) => ChangeStatusKeeps(s, o, status);
  }

  lemma StepKeeps(s: System, step: Step)
    requires Inv(s) && Enabled(s, step)
    ensures Inv(Apply(s, step))
  {
    hide Inv, Effected, Enabled, Drifting, Doubling;
    if step.BeginCancel? {
      BeginCancelKeeps(s, step.orderId);
    } else if step.Compensate? {
      CompensateKeeps(s, step.transaction);
    } else if step.Reconcile? {
      ReconcileKeeps(s, step.voucherId);
    } else {
      EffectKeeps(s, step);
      EffectKeepsHistory(s, step);
      HistoryGrows(Effected(s, step), s.adrift + Drifting(s, step), s.doubled + Doubling(s, step));
    }
  }

  lemma NeverConflicted(s: System, relay: RelayId)
    requires Inv(s)
    ensures !Enabled(s, Quarantine(relay)) && !Enabled(s, Split(relay, true)) && !Enabled(s, Split(relay, false))
  {
    assert relay in s.relays ==> PhaseSound(s.accepted, s.table.rows, s.relays[relay]);
  }

  /** The invariant holds after every run. */
  lemma {:induction false} RunKeeps(s: System, steps: seq<Step>)
    requires Inv(s)
    ensures Inv(Pipeline.Run(s, steps))
    decreases |steps|
  {
    hide Inv, Apply, Enabled;
    if steps != [] {
      if Enabled(s, steps[0]) {
        StepKeeps(s, steps[0]);
        RunKeeps(Apply(s, steps[0]), steps[1..]);
      } else {
        RunKeeps(s, steps[1..]);
      }
    }
  }
}
