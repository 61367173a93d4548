/** What the pipeline can always still do: nothing that was accepted is stuck, every unit can be sold, and
    whoever may cancel can. */
module PipelineProgress {
  import opened Wrappers
  import opened SeckillTypes
  import opened OutboxTable
  import opened OrderPersistence
  import opened Pipeline
  import opened PipelineInvariant
  import opened PipelineTheorems
  import Consumer = OrderConsumer
  import Once = EffectivelyOnce
  import OrderStatus
  import OutboxBatchWriter
  import StockCompensation

  // ---- Nothing is stuck ----

  lemma {:induction false} BelowBound(s: set<RelayId>) returns (bound: RelayId)
    ensures forall x | x in s :: x < bound
    decreases |s|
  {
    if s == {} {
      bound := 0;
    } else {
      var a := SomeElement(s);
      var rest := s - {a};
      var below := BelowBound(rest);
      bound := if a < below then below else a + 1;
      forall x | x in s ensures x < bound {
        assert x == a || x in rest;
      }
    }
  }

  // These steps leave transactions and the history of what went wrong alone.
  lemma StaysCalm(s: System, step: Step, v: VoucherId)
    requires Enabled(s, step) && (step.Read? || step.Insert? || step.Send?) && Calm(s, v)
    ensures Calm(Apply(s, step), v)
  {
    OnlyItsEffect(s, step);
  }

  /** From any reachable state an order with an outbox row can be sent and consumed. */
  lemma RowCanBeWritten(steps: seq<Step>, o: OrderId, now: Time) returns (more: seq<Step>)
    requires var s := Reached(steps);
             o in s.table.rows && o !in s.db.book.orders && o in s.accepted && Calm(s, s.accepted[o].voucherId)
    ensures o in Reached(steps + more).db.book.orders
  {
    AlwaysHolds(steps);
    var s := Reached(steps);
    RowIdentities(s);
    assert Valid(s.table);
    var send := Send(o, true);
    OneMore(steps, send);
    var s1 := Apply(s, send);
    OnlyItsEffect(s, send);
    StaysCalm(s, send, s.accepted[o].voucherId);
    var m := Consumer.Message(Some(s.table.ids[o]), o, s.table.rows[o].voucherId, s.table.rows[o].userId);
    assert m in s1.messages;
    MessageCanBeConsumed(steps + [send], m, now);
    more := [send] + [Consume([m], now)];
    assert steps + more == steps + [send] + [Consume([m], now)];
  }

  lemma MessageCanBeConsumed(steps: seq<Step>, m: Consumer.Message, now: Time)
    requires var s := Reached(steps);
             m in s.messages && m.orderId !in s.db.book.orders && Calm(s, m.voucherId)
    ensures m.orderId in Reached(steps + [Consume([m], now)]).db.book.orders
  {
    var s, consume := Reached(steps), Consume([m], now);
    AlwaysHolds(steps);
    hide Consumer.Consume, Inv;
    ConsumptionFailsOnlyOverCancelled(steps, [m], now);
    assert !Locked(s, m.voucherId);
    assert Enabled(s, consume);
    assert [m][0].orderId in Consumer.OrderIdsOf([m]);
    hide Apply, Enabled, Reached;
    OrderStatus.OrdersAfterStep(s, consume, m.orderId);
    OneMore(steps, consume);
  }

  lemma MemberCanBeStored(steps: seq<Step>, o: OrderId, now: Time) returns (more: seq<Step>)
    requires var s := Reached(steps);
             o in s.accepted && o !in s.table.rows && o !in s.db.book.orders && Calm(s, s.accepted[o].voucherId)
    ensures var s, s' := Reached(steps), Reached(steps + more);
            && o in s'.table.rows && o !in s'.db.book.orders && s'.accepted == s.accepted
            && Calm(s', s.accepted[o].voucherId)
  {
    hide Calm, Reached, InsertAll, Exclusive, Conserved, Transacting, Relaying, OrdersTraced, Valid;
    AlwaysHolds(steps);
    var s := Reached(steps);
    var p := s.accepted[o];
    var relay := BelowBound(s.relays.Keys);
    assert relay !in s.relays;
    var read, insert := Read(relay, [p]), Insert(relay, now);
    assert p in s.redis.handoff && p.orderId == o;
    OneMore(steps, read);
    OnlyItsEffect(s, read);
    StaysCalm(s, read, p.voucherId);
    var s1 := Apply(s, read);
    AlwaysHolds(steps + [read]);
    InsertSucceeds(s1, relay, now);
    InsertedThere(s1, relay, p, now);
    OneMore(steps + [read], insert);
    OnlyItsEffect(s1, insert);
    StaysCalm(s1, insert, p.voucherId);
    more := [read] + [insert];
    assert steps + more == steps + [read] + [insert];
  }

  lemma InsertedThere(s: System, relay: RelayId, p: Purchase, now: Time)
    requires Inv(s) && relay in s.relays && s.relays[relay] == Holding([p]) && Recorded(s.accepted, p)
    ensures p.orderId in InsertAll(s.table, Pipeline.EventsOf([p], now)).rows
  {
    InsertsRecorded(s.accepted, s.table.rows, [p], now);
    InsertAllRight(s.table, Pipeline.EventsOf([p], now));
    assert [p][0].orderId in InsertRows(s.table.rows, Pipeline.EventsOf([p], now));
  }

  /** No dead end: whatever relays, retries, reviews and cancellations have done, an accepted order of a
      voucher with nothing under way and nothing gone wrong is written or can still become written. */
  lemma AcceptedCanBeWritten(steps: seq<Step>, o: OrderId, now: Time) returns (more: seq<Step>)
    requires o in Reached(steps).accepted && Calm(Reached(steps), Reached(steps).accepted[o].voucherId)
    ensures o in Reached(steps + more).db.book.orders
  {
    hide Reached, Calm;
    more := [];
    if o in Reached(steps).db.book.orders {
      assert steps + more == steps;
    } else if o in Reached(steps).table.rows {
      more := RowCanBeWritten(steps, o, now);
    } else {
      var stored := MemberCanBeStored(steps, o, now);
      var written := RowCanBeWritten(steps + stored, o, now);
      more := stored + written;
      assert steps + more == steps + stored + written;
    }
  }

  /** And its handoff member and receipt can be cleared away. */
  lemma AcceptedCanBeCleared(steps: seq<Step>, o: OrderId, now: Time) returns (more: seq<Step>)
    requires o in Reached(steps).accepted && Reached(steps).accepted[o] in Reached(steps).redis.handoff
    ensures var s' := Reached(steps + more);
            Reached(steps).accepted[o] !in s'.redis.handoff && o !in s'.redis.receipts && o in s'.table.rows
  {
    hide Reached, InsertAll, Inv;
    AlwaysHolds(steps);
    var s := Reached(steps);
    var p := s.accepted[o];
    var relay := BelowBound(s.relays.Keys);
    OwnId(s, o);
    assert relay !in s.relays;
    var read, insert, complete := Read(relay, [p]), Insert(relay, now), Complete(relay);
    OneMore(steps, read);
    OnlyItsEffect(s, read);
    var s1 := Apply(s, read);
    AlwaysHolds(steps + [read]);
    StoresMember(s1, relay, p, now);
    OneMore(steps + [read], insert);
    var s2 := Apply(s1, insert);
    ClearsMember(s2, relay, p);
    OneMore(steps + [read] + [insert], complete);
    more := [read] + [insert] + [complete];
    assert steps + more == steps + [read] + [insert] + [complete];
  }

  lemma OwnId(s: System, o: OrderId)
    requires Inv(s) && o in s.accepted
    ensures s.accepted[o].orderId == o
  {
  }

  lemma StoresMember(s: System, relay: RelayId, p: Purchase, now: Time)
    requires Inv(s) && relay in s.relays && s.relays[relay] == Holding([p]) && Recorded(s.accepted, p)
    ensures var s' := Apply(s, Insert(relay, now));
            relay in s'.relays && s'.relays[relay] == Inserted([p]) && p.orderId in s'.table.rows
  {
    InsertSucceeds(s, relay, now);
    InsertedThere(s, relay, p, now);
    hide Inv, InsertAll, OutboxBatchWriter.Commit;
    OnlyItsEffect(s, Insert(relay, now));
  }

  lemma ClearsMember(s: System, relay: RelayId, p: Purchase)
    requires relay in s.relays && s.relays[relay] == Inserted([p])
    ensures var s' := Apply(s, Complete(relay));
            p !in s'.redis.handoff && p.orderId !in s'.redis.receipts && s'.table == s.table
  {
    assert p in [p];
    OnlyItsEffect(s, Complete(relay));
  }

  /** Relays can stop wherever they are, and nothing but themselves goes with them. */
  lemma {:induction false} RelaysCanStop(s: System) returns (steps: seq<Step>)
    ensures Pipeline.Run(s, steps) == s.(relays := map[])
    decreases |s.relays|
  {
    hide Drifting, Doubling;
    steps := [];
    if s.relays != map[] {
      var relay := SomeElement(s.relays.Keys);
      var stop := Stop(relay);
      OnlyItsEffect(s, stop);
      var s1 := Apply(s, stop);
      assert s1.relays.Keys == s.relays.Keys - {relay};
      var rest := RelaysCanStop(s1);
      RunFirst(s, stop, rest);
      steps := [stop] + rest;
    } else {
      assert s == s.(relays := map[]);
    }
  }

  // ---- Every unit is for sale ----

  function Accepts(ps: seq<Purchase>): seq<Step> {
    if ps == [] then [] else [Accept(ps[0])] + Accepts(ps[1..])
  }

  // New purchases of one voucher, each by a buyer of its own who has none.
  predicate FreshBuyers(s: System, v: VoucherId, ps: seq<Purchase>) {
    && (forall i | 0 <= i < |ps| ::
          ps[i].voucherId == v && ps[i].orderId !in s.accepted && (v, ps[i].userId) !in s.redis.purchased)
    && (forall i, j | 0 <= i < j < |ps| :: ps[i].orderId != ps[j].orderId && ps[i].userId != ps[j].userId)
  }

  // The first `n` of the purchases have been granted, and no other.
  ghost predicate FirstGranted(accepted: map<OrderId, Purchase>, accepted': map<OrderId, Purchase>, ps: seq<Purchase>,
      n: int)
  {
    forall o :: o in accepted' <==> o in accepted || exists i :: 0 <= i < |ps| && i < n && ps[i].orderId == o
  }

  lemma OneGranted(accepted: map<OrderId, Purchase>, accepted': map<OrderId, Purchase>, ps: seq<Purchase>, n: int)
    requires ps != [] && n > 0 && FirstGranted(accepted[ps[0].orderId := ps[0]], accepted', ps[1..], n - 1)
    ensures FirstGranted(accepted, accepted', ps, n)
  {
    forall o
      ensures o in accepted' <==> o in accepted || exists i :: 0 <= i < |ps| && i < n && ps[i].orderId == o
    {
      if i :| 0 <= i < |ps[1..]| && i < n - 1 && ps[1..][i].orderId == o {
        assert ps[i + 1].orderId == o;
      }
      if i :| 0 <= i < |ps| && i < n && ps[i].orderId == o {
        assert i > 0 ==> ps[1..][i - 1].orderId == o;
      }
    }
  }

  lemma RunFirst(s: System, step: Step, rest: seq<Step>)
    ensures Pipeline.Run(s, [step] + rest) == Pipeline.Run(if Enabled(s, step) then Apply(s, step) else s, rest)
  {
    hide Enabled, Apply;
    assert ([step] + rest)[0] == step && ([step] + rest)[1..] == rest;
  }

  lemma FreshRest(s: System, v: VoucherId, ps: seq<Purchase>)
    requires ps != [] && FreshBuyers(s, v, ps)
    ensures ps[0].voucherId == v && FreshBuyers(s, v, ps[1..])
    ensures v in s.redis.stock ==>
              && (Enabled(s, Accept(ps[0])) <==> s.redis.stock[v] > 0)
              && FreshBuyers(AfterAccept(s, ps[0]), v, ps[1..])
  {
    forall i | 0 <= i < |ps[1..]| ensures ps[1..][i] == ps[i + 1] {}
  }

  /** A voucher with n units sells to the first n of any new buyers and to no more of them. */
  lemma {:induction false} SellsOut(s: System, v: VoucherId, ps: seq<Purchase>)
    requires v in s.redis.stock && s.redis.stock[v] >= 0 && FreshBuyers(s, v, ps)
    ensures var s' := Pipeline.Run(s, Accepts(ps));
            && v in s'.redis.stock
            && s'.redis.stock[v] == (if |ps| <= s.redis.stock[v] then s.redis.stock[v] - |ps| else 0)
            && FirstGranted(s.accepted, s'.accepted, ps, s.redis.stock[v])
    decreases |ps|
  {
    if ps == [] {
      assert Pipeline.Run(s, Accepts(ps)) == s;
    } else {
      hide Pipeline.Run, FreshBuyers, Enabled, Apply;
      var p, rest := ps[0], ps[1..];
      FreshRest(s, v, ps);
      RunFirst(s, Accept(p), Accepts(rest));
      if s.redis.stock[v] == 0 {
        SellsOut(s, v, rest);
      } else {
        OnlyItsEffect(s, Accept(p));
        SellsOut(AfterAccept(s, p), v, rest);
        OneGranted(s.accepted, Pipeline.Run(s, Accepts(ps)).accepted, ps, s.redis.stock[v]);
      }
    }
  }

  // ---- Transactions begin and end ----

  /** A cancellation can begin in the pipeline exactly when the service gets as far as Redis with it and no
      other transaction holds the voucher's row. */
  lemma CancellationBeginsExactly(s: System, v: VoucherId, u: UserId)
    requires v in s.db.stock ==> s.db.stock[v] >= -1
    ensures (exists o ::
              o in s.db.book.orders && s.db.book.orders[o].voucherId == v && s.db.book.orders[o].userId == u
              && Enabled(s, BeginCancel(o)))
       <==> StockCompensation.Cancellable(s.db, v, u) && v in s.redis.stock && !Locked(s, v)
  {
    SelectsNewest(s.db.book, u, v);
    hide SelectOrderId;
    if StockCompensation.Cancellable(s.db, v, u) && v in s.redis.stock && !Locked(s, v) {
      var o := SelectOrderId(s.db.book, u, v).value;
      assert Enabled(s, BeginCancel(o));
    }
  }

  /** So can an adjustment, unless it would make the stock of Redis negative. */
  lemma AdjustmentBeginsExactly(s: System, v: VoucherId, change: int)
    requires v in s.db.stock ==> v in s.redis.stock
    ensures Enabled(s, BeginAdjust(v, change))
       <==> StockCompensation.Adjustable(s.db, v, change) && s.redis.stock[v] + change >= 0 && !Locked(s, v)
  {
  }

  /** An open transaction can commit and can roll back, and one that was rolled back can be compensated. */
  lemma TransactionsCanEnd(steps: seq<Step>, i: nat)
    requires i < |Reached(steps).transactions|
    ensures var s := Reached(steps);
            && (s.transactions[i].progress.Open? <==> Enabled(s, Commit(i)))
            && (s.transactions[i].progress.Open? <==> Enabled(s, RollBack(i)))
            && (s.transactions[i].progress.RolledBack? <==> Enabled(s, Compensate(i)))
  {
    AlwaysHolds(steps);
    var s := Reached(steps);
    ConservedInInv(s);
    assert ChangeSound(s.accepted, s.db.book, s.redis.stock, s.transactions[i]);
    hide Inv, Reached, Conserved, Exclusive;
  }

  // A consumed batch changes no stock of a voucher none of whose new orders it holds, and no order that is
  // there.
  lemma ConsumptionLeavesAlone(s: System, received: seq<Consumer.Message>, now: Time, v: VoucherId)
    requires Inv(s) && Enabled(s, Consume(received, now)) && Locked(s, v) && v in s.db.stock
    ensures var s' := Apply(s, Consume(received, now));
            && v in s'.db.stock && s'.db.stock[v] == s.db.stock[v]
            && (forall o | o in s.db.book.orders ::
                  o in s'.db.book.orders && s'.db.book.orders[o] == s.db.book.orders[o])
  {
    hide Inv, Consumer.Consume, UpdateRows, Effected;
    var step, given := Consume(received, now), Consumer.OrderIdsOf(received);
    ConsumeDelivers(s, received, now);
    OnlyItsEffect(s, step);
    NoneDue(s, received, now, v);
    var w := Once.ViewOf(Of(s));
    var s' := Effected(s, step);
    assert Once.ViewOf(Of(s')).stock == s'.db.stock && Once.ViewOf(Of(s')).orders == s'.db.book.orders;
    assert w.stock == s.db.stock && w.orders == s.db.book.orders;
  }

  lemma NoneDue(s: System, received: seq<Consumer.Message>, now: Time, v: VoucherId)
    requires Inv(s) && Enabled(s, Consume(received, now)) && Locked(s, v)
    ensures |Once.Due(Once.ViewOf(Of(s)), Once.Identities(s.table), Consumer.OrderIdsOf(received), v)| == 0
  {
    hide Consumer.Consume, Relaying, Kept, Transacting, Exclusive, Conserved, Locked;
    var given := Consumer.OrderIdsOf(received);
    forall o | o in given && o in s.table.rows && o !in s.db.book.orders ensures s.table.rows[o].voucherId != v {
      var i :| 0 <= i < |received| && received[i].orderId == o;
      assert received[i] in received && Once.FromOutbox(s.table, received[i]);
    }
    assert forall o :: o !in Once.Due(Once.ViewOf(Of(s)), Once.Identities(s.table), given, v);
    assert Once.Due(Once.ViewOf(Of(s)), Once.Identities(s.table), given, v) == {};
  }

  // The row of the order that a change is about, if it is a cancellation.
  predicate SameOrder(db: Db, db': Db, c: Change) {
    c.CancelOrder? ==>
      && c.orderId in db.book.orders && c.orderId in db'.book.orders
      && db'.book.orders[c.orderId] == db.book.orders[c.orderId]
  }

  lemma CommitLeavesAlone(s: System, i: nat, j: nat)
    requires Transacting(s.accepted, s.db.book, s.redis.stock, s.transactions) && Enabled(s, Commit(j))
    requires i < |s.transactions| && s.transactions[i].progress.Open? && i != j
    requires s.transactions[i].change.voucherId in s.db.stock
    ensures var s', c := Apply(s, Commit(j)), s.transactions[i].change;
            && c.voucherId in s'.db.stock && s'.db.stock[c.voucherId] == s.db.stock[c.voucherId]
            && SameOrder(s.db, s'.db, c) && i < |s'.transactions| && s'.transactions[i] == s.transactions[i]
  {
    assert ChangeSound(s.accepted, s.db.book, s.redis.stock, s.transactions[i]);
    assert ChangeSound(s.accepted, s.db.book, s.redis.stock, s.transactions[j]);
    OnlyItsEffect(s, Commit(j));
    hide Drifting, Doubling;
  }

  lemma OthersLeaveAlone(s: System, i: nat, step: Step)
    requires i < |s.transactions| && s.transactions[i].progress.Open? && s.transactions[i].change.voucherId in s.db.stock
    requires ChangeSound(s.accepted, s.db.book, s.redis.stock, s.transactions[i])
    requires Enabled(s, step) && !step.Consume? && !step.Commit? && step != RollBack(i)
    ensures var s', c := Apply(s, step), s.transactions[i].change;
            && c.voucherId in s'.db.stock && s'.db.stock[c.voucherId] == s.db.stock[c.voucherId]
            && SameOrder(s.db, s'.db, c) && i < |s'.transactions| && s'.transactions[i] == s.transactions[i]
  {
    hide Drifting, Doubling, Consumer.Consume, OutboxBatchWriter.Commit, ExpectedStock, RebuiltUsers, InsertAll;
    hide UpdateRows, Locked, SelectOrderId, Compensated;
    var c := s.transactions[i].change;
    assert step.ChangeStatus? && c.CancelOrder? ==> step.orderId != c.orderId by {
      assert c.CancelOrder? ==> Cancels(s.transactions[i], c.orderId);
    }
  }

  /** Isolation: while a transaction is open, no step but its own end changes the stock row it has updated
      or the order it is cancelling. */
  lemma OpenTransactionIsAlone(steps: seq<Step>, i: nat, step: Step)
    requires var s := Reached(steps);
             && i < |s.transactions| && s.transactions[i].progress.Open?
             && Enabled(s, step) && step != Commit(i) && step != RollBack(i)
    ensures var s, s' := Reached(steps), Apply(Reached(steps), step);
            var c := s.transactions[i].change;
            && c.voucherId in s.db.stock && c.voucherId in s'.db.stock
            && s'.db.stock[c.voucherId] == s.db.stock[c.voucherId] && SameOrder(s.db, s'.db, c)
            && i < |s'.transactions| && s'.transactions[i] == s.transactions[i]
  {
    hide Reached, Apply, Enabled;
    AlwaysHolds(steps);
    var s := Reached(steps);
    ConservedInInv(s);
    assert ChangeSound(s.accepted, s.db.book, s.redis.stock, s.transactions[i]);
    if step.Consume? {
      assert Locked(s, s.transactions[i].change.voucherId);
      ConsumptionLeavesAlone(s, step.received, step.now, s.transactions[i].change.voucherId);
      ConsumptionLeavesTransactions(s, step);
    } else if step.Commit? {
      CommitLeavesAlone(s, i, step.transaction);
    } else {
      OthersLeaveAlone(s, i, step);
    }
  }

  lemma ConsumptionLeavesTransactions(s: System, step: Step)
    requires Enabled(s, step) && step.Consume?
    ensures Apply(s, step).transactions == s.transactions
  {
    hide Consumer.Consume;
    OnlyItsEffect(s, step);
  }
}
