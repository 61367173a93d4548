/** What a customer is told about an order, after any run of the pipeline. */
module OrderStatus {
  import opened Wrappers
  import opened SeckillTypes
  import opened OutboxTable
  import opened OrderPersistence
  import opened Pipeline
  import opened PipelineInvariant
  import opened PipelineTheorems
  import OutboxBatchWriter
  import OutboxRows
  import Consumer = OrderConsumer
  import Once = EffectivelyOnce

  datatype Answer = Success | CancelledOrder | Processing | ManualReviewed | NotFound

  function QueryStatus(s: System, userId: UserId, o: OrderId): Answer {
    if o in s.db.book.orders then
      if s.db.book.orders[o].userId != userId then NotFound
      else if s.db.book.orders[o].status == CANCELLED then CancelledOrder else Success
    else if o in s.table.rows then
      if s.table.rows[o].userId != userId then NotFound
      else if s.table.rows[o].status == OutboxRows.ManualReview then ManualReviewed else Processing
    else if o in s.redis.receipts then
      if s.redis.receipts[o].0 != userId then NotFound else Processing
    else NotFound
  }

  /** The buyer is told about every accepted order at once and at all times, the only exception being an
      order issued automatically that is not in the outbox yet; nobody else is ever told anything. */
  lemma BuyerIsAnswered(steps: seq<Step>, userId: UserId, o: OrderId)
    ensures var s := Reached(steps);
            QueryStatus(s, userId, o) == NotFound
            <==> o !in s.accepted || s.accepted[o].userId != userId || (s.accepted[o].autoIssued && o !in s.table.rows)
  {
    AlwaysHolds(steps);
    var s := Reached(steps);
    assert o in s.table.rows ==> RowOf(s.table.rows[o], s.accepted[o]);
  }

  // ---- What happened ----

  // The k-th step took place.
  predicate Happened(steps: seq<Step>, k: nat) {
    k < |steps| && Enabled(Reached(steps[..k]), steps[k])
  }

  // A batch with the order's message was consumed.
  predicate ConsumedAt(steps: seq<Step>, k: nat, o: OrderId) {
    Happened(steps, k) && steps[k].Consume? && o in Consumer.OrderIdsOf(steps[k].received)
  }

  // A cancellation of the order was committed.
  predicate CancelledAt(steps: seq<Step>, k: nat, o: OrderId) {
    Happened(steps, k) && Cancelling(Reached(steps[..k]), steps[k], o)
  }

  predicate Cancelling(s: System, step: Step, o: OrderId) {
    step.Commit? && step.transaction < |s.transactions| && s.transactions[step.transaction].change.CancelOrder?
    && s.transactions[step.transaction].change.orderId == o
  }

  ghost predicate Consumed(steps: seq<Step>, o: OrderId) {
    exists k: nat :: ConsumedAt(steps, k, o)
  }

  ghost predicate Cancelled(steps: seq<Step>, o: OrderId) {
    exists k: nat :: CancelledAt(steps, k, o)
  }

  // ---- What a step does to orders ----

  predicate IsCancelled(book: Book, o: OrderId) {
    o in book.orders && book.orders[o].status == CANCELLED
  }

  lemma ConsumptionWrites(s: System, received: seq<Consumer.Message>, now: Time, o: OrderId)
    requires Inv(s) && Enabled(s, Consume(received, now))
    ensures var s' := Effected(s, Consume(received, now));
            && (o in s'.db.book.orders <==> o in s.db.book.orders || o in Consumer.OrderIdsOf(received))
            && (IsCancelled(s'.db.book, o) <==> IsCancelled(s.db.book, o))
  {
    hide Inv, Enabled, Effected, Consumer.Consume, Once.Deliver, UpdateRows, Once.Due;
    var s', given := Effected(s, Consume(received, now)), Consumer.OrderIdsOf(received);
    ConsumeDelivers(s, received, now);
    DeliveredOrders(s, s', given, o);
  }

  lemma DeliveredOrders(s: System, s': System, given: set<OrderId>, o: OrderId)
    requires Once.ViewOf(Of(s')) == Once.Deliver(Once.ViewOf(Of(s)), Once.Identities(s.table), given)
    requires forall x | x in given :: x in s.table.rows
    ensures o in s'.db.book.orders <==> o in s.db.book.orders || o in given
    ensures IsCancelled(s'.db.book, o) <==> IsCancelled(s.db.book, o)
  {
    hide Once.Due;
    var w := Once.ViewOf(Of(s'));
    assert w.orders == s'.db.book.orders;
    assert w.orders == Once.Deliver(Once.ViewOf(Of(s)), Once.Identities(s.table), given).orders;
  }

  lemma OrdersAfterStep(s: System, step: Step, o: OrderId)
    requires Inv(s) && Enabled(s, step)
    ensures var s' := Apply(s, step);
            && (o in s'.db.book.orders
                <==> o in s.db.book.orders || (step.Consume? && o in Consumer.OrderIdsOf(step.received)))
            && (IsCancelled(s'.db.book, o) <==> IsCancelled(s.db.book, o) || Cancelling(s, step, o))
  {
    hide Inv, Drifting, Doubling;
    if step.Consume? {
      ConsumptionWrites(s, step.received, step.now, o);
      hide Effected, Enabled;
    } else {
      hide Consumer.Consume, OutboxBatchWriter.Commit, ExpectedStock, RebuiltUsers, InsertAll, UpdateRows;
    }
  }

  // ---- Induction over the run ----

  lemma LastStep(steps: seq<Step>)
    requires steps != []
    ensures var front, last := steps[..|steps| - 1], steps[|steps| - 1];
            Reached(steps) == if Enabled(Reached(front), last) then Apply(Reached(front), last) else Reached(front)
  {
    hide Apply, Enabled;
    var front, last := steps[..|steps| - 1], steps[|steps| - 1];
    assert steps == front + [last];
    RunConcat(Initial(), front, [last]);
    assert [last][1..] == [];
    var s := Reached(front);
    var s1 := if Enabled(s, last) then Apply(s, last) else s;
    assert Pipeline.Run(s, [last]) == Pipeline.Run(s1, []);
  }

  lemma Earlier(steps: seq<Step>, o: OrderId)
    requires steps != []
    ensures var front, n := steps[..|steps| - 1], |steps| - 1;
            && (Consumed(steps, o) <==> Consumed(front, o) || ConsumedAt(steps, n, o))
            && (Cancelled(steps, o) <==> Cancelled(front, o) || CancelledAt(steps, n, o))
  {
    hide Cancelling, Enabled, Reached;
    var front, n := steps[..|steps| - 1], |steps| - 1;
    forall k: nat | k < n
      ensures ConsumedAt(steps, k, o) <==> ConsumedAt(front, k, o)
      ensures CancelledAt(steps, k, o) <==> CancelledAt(front, k, o)
    {
      assert steps[..k] == front[..k] && steps[k] == front[k];
    }
    assert forall k: nat :: (ConsumedAt(steps, k, o) ==> k <= n) && (ConsumedAt(front, k, o) ==> k < n);
    assert forall k: nat :: (CancelledAt(steps, k, o) ==> k <= n) && (CancelledAt(front, k, o) ==> k < n);
  }

  /** An order is written exactly if a batch with its message was consumed, and cancelled exactly if a
      cancellation of it was committed. */
  lemma {:induction false} OrdersAreWhatHappened(steps: seq<Step>, o: OrderId)
    ensures o in Reached(steps).db.book.orders <==> Consumed(steps, o)
    ensures IsCancelled(Reached(steps).db.book, o) <==> Cancelled(steps, o)
    decreases |steps|
  {
    if steps == [] {
      assert Reached(steps) == Initial();
    } else {
      var front, last := steps[..|steps| - 1], steps[|steps| - 1];
      OrdersAreWhatHappened(front, o);
      AlwaysHolds(front);
      LastStep(steps);
      Earlier(steps, o);
      hide Inv, Apply, Enabled, Reached, Cancelling, Consumed, Cancelled, IsCancelled;
      if Enabled(Reached(front), last) {
        OrdersAfterStep(Reached(front), last, o);
      }
    }
  }

  // ---- The answers ----

  /** The buyer of an accepted order is told success exactly if it was consumed and not cancelled since, that
      it is cancelled exactly if a cancellation of it was committed, that it is under review exactly if it
      was not consumed and its row is, and otherwise that it is being processed, as long as there is an
      outbox row or a receipt. */
  lemma EachAnswerExactly(steps: seq<Step>, o: OrderId)
    requires o in Reached(steps).accepted
    ensures var s := Reached(steps);
            var answer := QueryStatus(s, s.accepted[o].userId, o);
            && (answer == Success <==> Consumed(steps, o) && !Cancelled(steps, o))
            && (answer == CancelledOrder <==> Cancelled(steps, o))
            && (answer == ManualReviewed <==>
                !Consumed(steps, o) && o in s.table.rows && s.table.rows[o].status == OutboxRows.ManualReview)
            && (answer == Processing <==>
                && !Consumed(steps, o)
                && if o in s.table.rows then s.table.rows[o].status != OutboxRows.ManualReview
                   else !s.accepted[o].autoIssued)
  {
    AlwaysHolds(steps);
    OrdersAreWhatHappened(steps, o);
    hide Consumed, Cancelled, Reached;
    var s := Reached(steps);
    assert o in s.table.rows ==> RowOf(s.table.rows[o], s.accepted[o]);
  }

  /** Answers only advance: a cancelled order stays cancelled, a successful one is successful or cancelled
      later, and whoever has been told anything is never told later that there is no such order. */
  lemma AnswersAdvance(before: seq<Step>, after: seq<Step>, userId: UserId, o: OrderId)
    ensures var a, b := QueryStatus(Reached(before), userId, o), QueryStatus(Reached(before + after), userId, o);
            && (a == CancelledOrder ==> b == CancelledOrder)
            && (a == Success ==> b == Success || b == CancelledOrder)
            && (a != NotFound ==> b != NotFound)
  {
    AlwaysHolds(before);
    RunConcat(Initial(), before, after);
    RunIsLater(Reached(before), after);
    BuyerIsAnswered(before, userId, o);
    BuyerIsAnswered(before + after, userId, o);
    hide Inv, Reached, Pipeline.Run;
  }
}
