/** What holds after every run of the pipeline from the empty system. */
module PipelineTheorems {
  import opened Wrappers
  import opened SeckillTypes
  import opened OutboxTable
  import opened OrderPersistence
  import opened Pipeline
  import opened PipelineInvariant
  import OutboxBatchWriter
  import OutboxRows
  import Consumer = OrderConsumer
  import Once = EffectivelyOnce

  function Reached(steps: seq<Step>): System {
    Pipeline.Run(Initial(), steps)
  }

  lemma AlwaysHolds(steps: seq<Step>)
    ensures Inv(Reached(steps))
  {
    InitialHolds();
    RunKeeps(Initial(), steps);
  }

  /** Conservation: for every voucher that never came adrift, what MySQL has in stock beyond Redis is the
      number of accepted orders that have no order row yet, less what open or rolled back transactions have
      put into Redis ahead of MySQL, which is nothing when there are none; and Redis never sells below zero. */
  lemma StockIsConserved(steps: seq<Step>, v: VoucherId)
    requires v in Reached(steps).redis.stock
    ensures var s := Reached(steps);
            && v in s.db.stock
            && (v !in s.adrift ==>
                  && s.redis.stock[v] >= 0
                  && s.db.stock[v] - s.redis.stock[v]
                  == |Outstanding(s.accepted, s.db.book, v)| - Ahead(s.transactions, v))
            && (AtRest(s.transactions, v) ==> Ahead(s.transactions, v) == 0)
  {
    AlwaysHolds(steps);
    var s := Reached(steps);
    assert v !in s.adrift ==> StockSound(s.accepted, s.db.book, s.transactions, s.redis.stock, s.db.stock, v);
    if AtRest(s.transactions, v) {
      AheadAtRest(s.transactions, v);
    }
  }

  /** No accepted order is lost, however relays stop and overlap: it waits in the handoff set or has an
      outbox row that names it, its voucher and its buyer. Nothing is ever in quarantine. */
  lemma NothingIsLost(steps: seq<Step>, o: OrderId)
    requires o in Reached(steps).accepted
    ensures var s := Reached(steps);
            && s.redis.quarantine == {}
            && (s.accepted[o] in s.redis.handoff
                || (o in s.table.rows
                    && OutboxRows.IdentityOf(s.table.rows[o]) == EventIdentity(EventOf(s.accepted[o], 0))))
  {
    AlwaysHolds(steps);
    var s := Reached(steps);
    assert o in s.table.rows ==> RowOf(s.table.rows[o], s.accepted[o]);
  }

  /** At most one live order for a buyer and a voucher, but for orders that are being cancelled, unless a
      cancellation was rolled back after the buyer had bought again. */
  lemma OneLiveOrder(steps: seq<Step>, o: OrderId, o': OrderId)
    requires var s := Reached(steps);
             && Live(s.accepted, s.db.book, o) && Live(s.accepted, s.db.book, o')
             && Buyer(s.accepted[o]) == Buyer(s.accepted[o']) && Buyer(s.accepted[o]) !in s.doubled
    ensures var s := Reached(steps); o == o' || InDoubt(s.transactions, o) || InDoubt(s.transactions, o')
  {
    AlwaysHolds(steps);
    var s := Reached(steps);
    assert BuyerSound(s.accepted, s.db.book, s.transactions, s.redis.purchased, Buyer(s.accepted[o]));
  }

  // ---- When stocks come apart and buyers may buy twice ----

  lemma DriftIsReal(s: System, step: Step, v: VoucherId)
    requires Inv(s) && Enabled(s, step) && v !in s.adrift && v in Drifting(s, step)
    ensures var s' := Effected(s, step);
            && v in s'.redis.stock && v in s'.db.stock
            && !StockSound(s'.accepted, s'.db.book, s'.transactions, s'.redis.stock, s'.db.stock, v)
  {
    assert v in s.redis.stock;
    assert StockSound(s.accepted, s.db.book, s.transactions, s.redis.stock, s.db.stock, v);
    if step.Reconcile? {
      ReconcileFindsTheSame(s, v);
      hide Inv, Outstanding, ExpectedStock, RebuiltUsers, Ahead;
    } else {
      hide Inv, Outstanding, Ahead;
      AheadAfter(s.transactions, step.transaction, Done, v);
    }
  }

  lemma MarkIsLost(s: System, o: OrderId)
    requires Traced(s) && Enabled(s, BeginCancel(o)) && HasAnother(s, o)
    ensures var s' := Effected(s, BeginCancel(o));
            !BuyerSound(s'.accepted, s'.db.book, s'.transactions, s'.redis.purchased, Buyer(s.accepted[o]))
  {
    OrdersAreTraced(s);
    var s' := Effected(s, BeginCancel(o));
    var o' :| o' in s.accepted && o' != o && Buyer(s.accepted[o']) == Buyer(s.accepted[o])
        && Settled(s.accepted, s.db.book, s.transactions, o');
    hide SelectOrderId, InDoubt, Traced;
    DoubtOfMore(s.transactions, s'.transactions[|s.transactions|], o');
    assert Settled(s'.accepted, s'.db.book, s'.transactions, o');
  }

  lemma KeptOrderIsOneTooMany(s: System, i: nat)
    requires Transacting(s.accepted, s.db.book, s.redis.stock, s.transactions)
    requires Enabled(s, Compensate(i)) && Doubling(s, Compensate(i)) != {}
    ensures var s', c := Effected(s, Compensate(i)), s.transactions[i].change;
            !BuyerSound(s'.accepted, s'.db.book, s'.transactions, s'.redis.purchased, (c.voucherId, c.userId))
  {
    var s', c := Effected(s, Compensate(i)), s.transactions[i].change;
    assert ChangeSound(s.accepted, s.db.book, s.redis.stock, s.transactions[i]);
    assert Settled(s'.accepted, s'.db.book, s'.transactions, c.orderId);
    if HasAnother(s, c.orderId) {
      var o' :| o' in s.accepted && o' != c.orderId && Buyer(s.accepted[o']) == Buyer(s.accepted[c.orderId])
          && Settled(s.accepted, s.db.book, s.transactions, o');
      DoubtAfter(s.transactions, i, Done, o');
      assert Settled(s'.accepted, s'.db.book, s'.transactions, o');
    }
  }

  lemma DoublingIsReal(s: System, step: Step, b: (VoucherId, UserId))
    requires Inv(s) && Enabled(s, step) && b in Doubling(s, step)
    ensures var s' := Effected(s, step);
            !BuyerSound(s'.accepted, s'.db.book, s'.transactions, s'.redis.purchased, b)
  {
    if step.BeginCancel? {
      MarkIsLost(s, step.orderId);
    } else {
      KeptOrderIsOneTooMany(s, step.transaction);
    }
  }

  /** The history says exactly what went wrong: a voucher comes adrift, and a buyer may buy twice, with the
      very step that makes it so. */
  lemma HistoryIsExact(s: System, step: Step, v: VoucherId, b: (VoucherId, UserId))
    requires Inv(s) && Enabled(s, step) && v in s.redis.stock && v !in s.adrift && b !in s.doubled
    ensures var s' := Apply(s, step);
            && v in s'.redis.stock && v in s'.db.stock
            && (v in s'.adrift <==> !StockSound(s'.accepted, s'.db.book, s'.transactions, s'.redis.stock, s'.db.stock, v))
            && (b in s'.doubled <==> !BuyerSound(s'.accepted, s'.db.book, s'.transactions, s'.redis.purchased, b))
  {
    var s' := Apply(s, step);
    VouchersStay(s, step, v);
    StepKeeps(s, step);
    ConservedInInv(s');
    EffectKeepsHistory(s, step);
    hide Effected, Drifting, Doubling, StockSound, BuyerSound, Inv, Transacting;
    if v in s'.adrift {
      DriftIsReal(s, step, v);
    }
    if b in s'.doubled {
      DoublingIsReal(s, step, b);
    }
  }

  lemma VouchersStay(s: System, step: Step, v: VoucherId)
    requires Enabled(s, step) && v in s.redis.stock
    ensures v in Apply(s, step).redis.stock
  {
    hide Consumer.Consume, OutboxBatchWriter.Commit, ExpectedStock, RebuiltUsers, Drifting, Doubling, HandoffOnly;
  }

  /** An order row has an outbox row, and a completed outbox row has its order row, with the same buyer
      and voucher as the purchase. */
  lemma CompletedIsPersisted(steps: seq<Step>, o: OrderId)
    ensures var s := Reached(steps);
            && (o in s.table.rows && s.table.rows[o].status == OutboxRows.Completed ==> o in s.db.book.orders)
            && (o in s.db.book.orders ==>
                  && o in s.table.rows && o in s.accepted
                  && s.db.book.orders[o].userId == s.accepted[o].userId
                  && s.db.book.orders[o].voucherId == s.accepted[o].voucherId)
            && (o in s.table.rows ==> OutboxRows.Consistent(s.table.rows[o]))
  {
    AlwaysHolds(steps);
    var s := Reached(steps);
    assert o in s.table.rows ==> RowOf(s.table.rows[o], s.accepted[o]);
  }

  /** For calm vouchers any batch of messages that were ever sent, in any order and with any repetition, is
      consumed if and only if none of its orders has been cancelled; and it never fails over database stock. */
  lemma ConsumptionFailsOnlyOverCancelled(steps: seq<Step>, received: seq<Consumer.Message>, now: Time)
    requires forall m | m in received :: m in Reached(steps).messages && Calm(Reached(steps), m.voucherId)
    ensures var s := Reached(steps);
            var r := Consumer.Consume(Of(s), received, now);
            && (r.Ok? <==> forall m | m in received && m.orderId in s.db.book.orders ::
                Active(s.db.book.orders[m.orderId]))
            && (r.Err? ==> r.error.NotCreated? && !r.error.reason.StockMismatch?)
  {
    AlwaysHolds(steps);
    var s := Reached(steps);
    var vouchers := set m | m in received :: m.voucherId;
    PipelineIsReady(s, vouchers);
    Once.ConsumedUnlessCancelled(Of(s), vouchers, received, now);
    Once.StockNeverMismatches(Of(s), vouchers, received, now);
  }

  /** Reconciliation finds what Redis already has: every buyer of a live order, and nobody else unless a
      handoff member of a cancelled order was left behind; and the same stock if and only if transactions
      have moved none of it ahead of MySQL, or they have and none is left. */
  lemma ReconciliationChangesNothing(steps: seq<Step>, v: VoucherId, u: UserId)
    requires v in Reached(steps).db.stock
    ensures var s := Reached(steps);
            && v in s.redis.stock
            && (v !in s.adrift ==>
                  && var ahead := Ahead(s.transactions, v);
                  (ExpectedStock(s, v) == s.redis.stock[v] <==> ahead == 0 || (ahead > 0 && s.redis.stock[v] == 0)))
            && (LiveBuyer(s, v, u) ==> u in RebuiltUsers(s, v))
            && ((forall x | x in RebuiltUsers(s, v) :: LiveBuyer(s, v, x))
                <==> forall p | p in s.redis.handoff && p.voucherId == v :: LiveBuyer(s, v, p.userId))
  {
    AlwaysHolds(steps);
    var s := Reached(steps);
    if v !in s.adrift {
      ReconcileFindsTheSame(s, v);
    }
    ReconcileMarksOnlyBuyers(s, v);
    if LiveBuyer(s, v, u) {
      ReconcileMarksBuyers(s, v, u);
    }
  }

  // ---- From one moment to a later one ----

  /** History: purchases, outbox rows with their row ids and identities, and orders with their buyers
      only ever become more. */
  ghost predicate Later(s: System, s': System) {
    && (forall o | o in s.accepted :: o in s'.accepted && s'.accepted[o] == s.accepted[o])
    && (forall o | o in s.table.rows ::
          o in s'.table.rows && OutboxRows.IdentityOf(s'.table.rows[o]) == OutboxRows.IdentityOf(s.table.rows[o]))
    && (forall o | o in s.table.ids :: o in s'.table.ids && s'.table.ids[o] == s.table.ids[o])
    && (forall o | o in s.table.rows && s.table.rows[o].status == OutboxRows.Completed ::
        s'.table.rows[o] == s.table.rows[o])
    && (forall o | o in s.db.book.orders ::
          && o in s'.db.book.orders
          && s'.db.book.orders[o].userId == s.db.book.orders[o].userId
          && s'.db.book.orders[o].voucherId == s.db.book.orders[o].voucherId
          && (!Active(s.db.book.orders[o]) ==> !Active(s'.db.book.orders[o])))
    && s.messages <= s'.messages
  }

  lemma UpdatedRowsAreLater(s: System, orders: set<OrderId>, statement: OutboxRows.Statement, now: Time)
    ensures Later(s, s.(table := s.table.(rows := UpdateRows(s.table.rows, orders, statement, now))))
  {
    var rows := UpdateRows(s.table.rows, orders, statement, now);
    forall o | o in s.table.rows
      ensures OutboxRows.IdentityOf(rows[o]) == OutboxRows.IdentityOf(s.table.rows[o])
      ensures s.table.rows[o].status == OutboxRows.Completed ==> rows[o] == s.table.rows[o]
    {
      RowUpdated(s.table.rows, orders, statement, now, o);
    }
  }

  lemma InsertIsLater(s: System, relay: RelayId, now: Time)
    requires Valid(s.table) && Enabled(s, Insert(relay, now))
    ensures Later(s, Effected(s, Insert(relay, now)))
  {
    var events := Pipeline.EventsOf(s.relays[relay].batch, now);
    InsertAllRight(s.table, events);
    InsertRowsExtends(s.table.rows, events);
  }

  lemma OrdersStay(s: System, s': System, given: set<OrderId>)
    requires Once.ViewOf(Of(s')) == Once.Deliver(Once.ViewOf(Of(s)), Once.Identities(s.table), given)
    ensures forall o | o in s.db.book.orders :: o in s'.db.book.orders && s'.db.book.orders[o] == s.db.book.orders[o]
  {
    var w' := Once.ViewOf(Of(s'));
    assert w'.orders == Once.Deliver(Once.ViewOf(Of(s)), Once.Identities(s.table), given).orders;
  }

  lemma ConsumeIsLater(s: System, received: seq<Consumer.Message>, now: Time)
    requires Inv(s) && Enabled(s, Consume(received, now))
    ensures Later(s, Effected(s, Consume(received, now)))
  {
    var s', given := Effected(s, Consume(received, now)), Consumer.OrderIdsOf(received);
    ConsumeDelivers(s, received, now);
    UpdatedRowsAreLater(s, given, OutboxRows.MarkCompleted, now);
    hide Consumer.Consume, UpdateRows, Inv;
    OrdersStay(s, s', given);
  }

  lemma SameTablesAreLater(s: System, s': System)
    requires s'.table == s.table && s'.db.book == s.db.book && s.messages <= s'.messages
    requires forall o | o in s.accepted :: o in s'.accepted && s'.accepted[o] == s.accepted[o]
    ensures Later(s, s')
  {
  }

  lemma NewStatusIsLater(s: System, o: OrderId, status: int, s': System)
    requires o in s.db.book.orders && s'.db.book == WithStatus(s.db.book, o, status)
    requires Active(s.db.book.orders[o])
    requires s'.table == s.table && s'.accepted == s.accepted && s'.messages == s.messages
    ensures Later(s, s')
  {
  }

  lemma EffectIsLater(s: System, step: Step)
    requires Inv(s) && Enabled(s, step)
    ensures Later(s, Effected(s, step))
  {
    ValidInInv(s);
    hide Inv, Later;
    var s' := Effected(s, step);
    if step.Insert? {
      InsertIsLater(s, step.relay, step.now);
    } else if step.UpdateRow? {
      UpdatedRowsAreLater(s, step.orders, step.statement, step.now);
    } else if step.Consume? {
      ConsumeIsLater(s, step.received, step.now);
    } else if step.Commit? && s.transactions[step.transaction].change.CancelOrder? {
      ActiveUntilCommitted(s, step.transaction);
      NewStatusIsLater(s, s.transactions[step.transaction].change.orderId, CANCELLED, s');
    } else if step.ChangeStatus? {
      NewStatusIsLater(s, step.orderId, step.status, s');
    } else {
      SameTablesAreLater(s, s');
    }
  }

  lemma ActiveUntilCommitted(s: System, i: nat)
    requires Inv(s) && Enabled(s, Commit(i)) && s.transactions[i].change.CancelOrder?
    ensures Active(s.db.book.orders[s.transactions[i].change.orderId])
  {
    assert ChangeSound(s.accepted, s.db.book, s.redis.stock, s.transactions[i]);
  }

  lemma StepIsLater(s: System, step: Step)
    requires Inv(s) && Enabled(s, step)
    ensures Later(s, Apply(s, step))
  {
    EffectIsLater(s, step);
    hide Inv, Effected, Enabled, Drifting, Doubling;
  }

  lemma ValidInInv(s: System)
    requires Inv(s)
    ensures Valid(s.table)
  {
  }

  lemma LaterStill(s: System, s1: System, s2: System)
    requires Later(s, s1) && Later(s1, s2)
    ensures Later(s, s2)
  {
  }

  /** Whatever happens next, nothing that is recorded is forgotten or rewritten. */
  lemma {:induction false} RunIsLater(s: System, steps: seq<Step>)
    requires Inv(s)
    ensures Later(s, Pipeline.Run(s, steps))
    decreases |steps|
  {
    hide Inv, Apply, Enabled, Later;
    if steps == [] {
      SameIsLater(s);
    } else if Enabled(s, steps[0]) {
      var s1 := Apply(s, steps[0]);
      StepKeeps(s, steps[0]);
      StepIsLater(s, steps[0]);
      RunIsLater(s1, steps[1..]);
      LaterStill(s, s1, Pipeline.Run(s1, steps[1..]));
    } else {
      RunIsLater(s, steps[1..]);
    }
  }

  lemma SameIsLater(s: System)
    ensures Later(s, s)
  {
  }

  lemma {:induction false} RunConcat(s: System, a: seq<Step>, b: seq<Step>)
    ensures Pipeline.Run(s, a + b) == Pipeline.Run(Pipeline.Run(s, a), b)
    decreases |a|
  {
    hide Apply, Enabled;
    if a == [] {
      assert a + b == b;
    } else {
      assert (a + b)[0] == a[0] && (a + b)[1..] == a[1..] + b;
      RunConcat(if Enabled(s, a[0]) then Apply(s, a[0]) else s, a[1..], b);
    }
  }

  /** An order accepted at any moment is, at every later moment, in the handoff set or in the outbox
      under the same buyer and voucher. */
  lemma AcceptedForGood(before: seq<Step>, after: seq<Step>, o: OrderId)
    requires o in Reached(before).accepted
    ensures var p, s := Reached(before).accepted[o], Reached(before + after);
            && Recorded(s.accepted, p)
            && (p in s.redis.handoff
                || (o in s.table.rows && OutboxRows.IdentityOf(s.table.rows[o]) == EventIdentity(EventOf(p, 0))))
  {
    AlwaysHolds(before);
    RunConcat(Initial(), before, after);
    RunIsLater(Reached(before), after);
    NothingIsLost(before + after, o);
  }

  // ---- One step more ----

  lemma OneMore(steps: seq<Step>, step: Step)
    requires Enabled(Reached(steps), step)
    ensures Reached(steps + [step]) == Apply(Reached(steps), step)
  {
    hide Apply, Enabled;
    var s := Reached(steps);
    RunConcat(Initial(), steps, [step]);
    assert [step][1..] == [];
    assert Pipeline.Run(s, [step]) == Pipeline.Run(Apply(s, step), []);
  }

  // No step of these kinds ever adds to the history of what went wrong.
  lemma OnlyItsEffect(s: System, step: Step)
    requires Enabled(s, step) && !(step.BeginCancel? || step.Compensate? || step.Reconcile?)
    ensures Apply(s, step) == Effected(s, step)
  {
    EffectKeepsHistory(s, step);
    hide Effected, Enabled;
  }
}
