/** Writes a batch of accepted orders into the outbox in one transaction: all of them or none. */
module OutboxBatchWriter {
  import opened Wrappers
  import opened SeckillTypes
  import opened OutboxRows
  import opened OutboxTable

  // BadSql: a multi-row insert of no rows.
  datatype WriteError = BadSql | Conflict

  /** What one transaction makes of the rows, said without the insert count. */
  function Commit(rows: Rows, events: seq<Event>): Result<Rows, WriteError> {
    if events == [] then Err(BadSql)
    else if AllStored(InsertRows(rows, events), events) then Ok(InsertRows(rows, events))
    else Err(Conflict)
  }

  ghost predicate AcceptedMap(accepted: map<OrderId, Identity>, events: seq<Event>) {
    && accepted.Keys == (set i | 0 <= i < |events| :: events[i].orderId)
    && (forall i | 0 <= i < |events| :: accepted[events[i].orderId] == EventIdentity(events[i]))
  }

  class SeckillOrderOutboxBatchWriter {
    const outboxMapper: OutboxMapper

    constructor (outboxMapper: OutboxMapper)
      ensures this.outboxMapper == outboxMapper
    {
      this.outboxMapper := outboxMapper;
    }

    method InsertCommitted(events: seq<Event>) returns (r: Result<map<OrderId, Identity>, WriteError>)
      requires Valid(outboxMapper.table)
      modifies outboxMapper
      ensures Valid(outboxMapper.table)
      ensures match Commit(old(outboxMapper.table.rows), events)
              case Ok(rows) => r.Ok? && AcceptedMap(r.value, events) && outboxMapper.table.rows == rows
              case Err(e) => r == Err(e) && outboxMapper.table.rows == old(outboxMapper.table.rows)
                             && outboxMapper.table.ids == old(outboxMapper.table.ids)
      ensures forall o | o in old(outboxMapper.table.ids) ::
                o in outboxMapper.table.ids && outboxMapper.table.ids[o] == old(outboxMapper.table.ids)[o]
    {
      if events == [] {
        return Err(BadSql);
      }
      var rows, ids := outboxMapper.table.rows, outboxMapper.table.ids;
      InsertAllRight(outboxMapper.table, events);
      var inserted := outboxMapper.InsertIgnoreBatch(events);
      if inserted == |events| {
        FullCountStoresAll(rows, events);
        var accepted := AcceptAll(events);
        return Ok(accepted);
      }
      var orderIds, requestedOrderIds := RequestedOrderIds(events);
      var persisted := outboxMapper.FindByOrderIds(orderIds);
      var accepted := map o | o in persisted :: IdentityOf(persisted[o]);
      if |accepted| != |requestedOrderIds| {
        MissingRow(accepted.Keys, requestedOrderIds);
        outboxMapper.Rollback(rows, ids);
        return Err(Conflict);
      }
      SameSizeSubset(accepted.Keys, requestedOrderIds);
      var same := AllSame(events, accepted);
      if !same {
        outboxMapper.Rollback(rows, ids);
        return Err(Conflict);
      }
      return Ok(accepted);
    }

    static method AcceptAll(events: seq<Event>) returns (accepted: map<OrderId, Identity>)
      requires forall i, j | 0 <= i < j < |events| :: events[i].orderId == events[j].orderId ==>
                 EventIdentity(events[i]) == EventIdentity(events[j])
      ensures AcceptedMap(accepted, events)
    {
      accepted := map[];
      for i := 0 to |events|
        invariant accepted.Keys == (set k | 0 <= k < i :: events[k].orderId)
        invariant forall k | 0 <= k < i :: accepted[events[k].orderId] == EventIdentity(events[k])
      {
        accepted := accepted[events[i].orderId := EventIdentity(events[i])];
      }
    }

    static method RequestedOrderIds(events: seq<Event>) returns (orderIds: seq<OrderId>, requested: set<OrderId>)
      ensures requested == (set i | 0 <= i < |events| :: events[i].orderId) == Set(orderIds)
    {
      orderIds, requested := [], {};
      for i := 0 to |events|
        invariant |orderIds| == i && (forall k | 0 <= k < i :: orderIds[k] == events[k].orderId)
        invariant requested == (set k | 0 <= k < i :: events[k].orderId)
        invariant requested == Set(orderIds)
      {
        orderIds := orderIds + [events[i].orderId];
        requested := requested + {events[i].orderId};
      }
    }

    static method AllSame(events: seq<Event>, accepted: map<OrderId, Identity>) returns (same: bool)
      requires forall i | 0 <= i < |events| :: events[i].orderId in accepted
      ensures same <==> forall i | 0 <= i < |events| :: accepted[events[i].orderId] == EventIdentity(events[i])
    {
      for i := 0 to |events|
        invariant forall k | 0 <= k < i :: accepted[events[k].orderId] == EventIdentity(events[k])
      {
        if EventIdentity(events[i]) != accepted[events[i].orderId] {
          return false;
        }
      }
      return true;
    }
  }

  lemma SameSizeSubset<T>(a: set<T>, b: set<T>)
    requires a <= b && |a| == |b|
    ensures a == b
  {
    assert b == a + (b - a);
    assert |b| == |a| + |b - a|;
  }

  lemma MissingRow<T>(a: set<T>, b: set<T>)
    requires a <= b && |a| != |b|
    ensures exists x :: x in b && x !in a
  {
    assert b <= a ==> a == b;
    assert !(b <= a);
  }

  /** Writing the same batch again succeeds and changes nothing. */
  lemma CommitAgain(rows: Rows, events: seq<Event>)
    requires Commit(rows, events).Ok?
    ensures Commit(Commit(rows, events).value, events) == Commit(rows, events)
    ensures InsertedCount(Commit(rows, events).value, events) == 0
  {
    StoredInsertsNothing(InsertRows(rows, events), events);
  }

  /** A committed batch leaves the rows that were there alone, and stores each event's identity. */
  lemma CommitStores(rows: Rows, events: seq<Event>)
    requires Commit(rows, events).Ok?
    ensures Extends(rows, Commit(rows, events).value) && AllStored(Commit(rows, events).value, events)
  {
    InsertRowsExtends(rows, events);
  }

  // ---- Which batches are committed ----

  predicate SameColumns(a: Event, b: Event) {
    a.eventId == b.eventId && a.voucherId == b.voucherId && a.userId == b.userId && a.autoIssued == b.autoIssued
  }

  // The event's order has a row with the same event id, voucher, user and flag, or it has none and the
  // event id is not taken.
  predicate Fits(rows: Rows, e: Event) {
    if e.orderId in rows then
      var r := rows[e.orderId];
      r.eventId == e.eventId && r.voucherId == e.voucherId && r.userId == e.userId && r.autoIssued == e.autoIssued
    else forall o | o in rows :: rows[o].eventId != e.eventId
  }

  // Two new events are about different orders under different event ids, or are the same.
  predicate Agree(rows: Rows, a: Event, b: Event) {
    a.orderId !in rows && b.orderId !in rows ==>
      if a.orderId == b.orderId then SameColumns(a, b) else a.eventId != b.eventId
  }

  /** A batch is committed if and only if it is not empty, each of its events fits what is stored, and they
      fit each other. */
  lemma CommitsExactly(rows: Rows, events: seq<Event>)
    ensures Commit(rows, events).Ok?
       <==> && events != []
            && (forall i | 0 <= i < |events| :: Fits(rows, events[i]))
            && (forall i, j | 0 <= i < j < |events| :: Agree(rows, events[i], events[j]))
  {
    StoredExactly(rows, events);
  }

  lemma {:induction false} StoredExactly(rows: Rows, events: seq<Event>)
    ensures AllStored(InsertRows(rows, events), events)
       <==> && (forall i | 0 <= i < |events| :: Fits(rows, events[i]))
            && (forall i, j | 0 <= i < j < |events| :: Agree(rows, events[i], events[j]))
    decreases |events|
  {
    hide Fits, Agree, Stored, SameColumns, InsertRow;
    if events != [] {
      var e, rest := events[0], events[1..];
      var rows1 := InsertRow(rows, e);
      StoredExactly(rows1, rest);
      FirstStoredExactly(rows, events);
      forall k | 0 <= k < |rest| ensures rest[k] == events[k + 1] {}
      if Fits(rows, e) {
        forall k | 0 <= k < |rest|
          ensures Fits(rows1, rest[k]) <==> Fits(rows, rest[k]) && Agree(rows, e, rest[k])
        {
          FitsLater(rows, e, rest[k]);
        }
        forall i, j | 0 <= i < j < |rest| && Fits(rows1, rest[i]) && Fits(rows1, rest[j])
          ensures Agree(rows1, rest[i], rest[j]) <==> Agree(rows, rest[i], rest[j])
        {
          AgreesLater(rows, e, rest[i], rest[j]);
        }
        Shifted(rows, events);
      }
    }
  }

  // What holds of all events holds of the first and of the rest.
  lemma Shifted(rows: Rows, events: seq<Event>)
    requires events != []
    ensures (&& (forall i | 0 <= i < |events| :: Fits(rows, events[i]))
             && (forall i, j | 0 <= i < j < |events| :: Agree(rows, events[i], events[j])))
       <==> && Fits(rows, events[0])
            && (forall k | 0 <= k < |events[1..]| ::
                  Fits(rows, events[1..][k]) && Agree(rows, events[0], events[1..][k]))
            && (forall i, j | 0 <= i < j < |events[1..]| :: Agree(rows, events[1..][i], events[1..][j]))
  {
    hide Fits, Agree;
    var e, rest := events[0], events[1..];
    assert events == [e] + rest;
    if && Fits(rows, e) && (forall k | 0 <= k < |rest| :: Fits(rows, rest[k]) && Agree(rows, e, rest[k]))
       && (forall i, j | 0 <= i < j < |rest| :: Agree(rows, rest[i], rest[j])) {
      forall i | 0 <= i < |events| ensures Fits(rows, events[i]) {
        assert i > 0 ==> events[i] == rest[i - 1];
      }
      forall i, j | 0 <= i < j < |events| ensures Agree(rows, events[i], events[j]) {
        assert events[j] == rest[j - 1] && (i > 0 ==> events[i] == rest[i - 1]);
      }
    }
  }

  lemma FirstStoredExactly(rows: Rows, events: seq<Event>)
    requires events != []
    ensures AllStored(InsertRows(rows, events), events)
       <==> Fits(rows, events[0]) && AllStored(InsertRows(InsertRow(rows, events[0]), events[1..]), events[1..])
  {
    var e, rest := events[0], events[1..];
    var rows1, end := InsertRow(rows, e), InsertRows(rows, events);
    InsertRowsExtends(rows1, rest);
    assert Stored(rows1, e) <==> Fits(rows, e);
    if AllStored(end, events) {
      FirstStoredAlone(rows, events);
      assert forall k | 0 <= k < |rest| :: rest[k] == events[k + 1];
    }
    if Fits(rows, e) && AllStored(end, rest) {
      assert Stored(end, e);
      forall i | 0 <= i < |events| ensures Stored(end, events[i]) {
        assert i > 0 ==> events[i] == rest[i - 1];
      }
    }
  }

  lemma FitsLater(rows: Rows, e: Event, x: Event)
    requires Fits(rows, e)
    ensures Fits(InsertRow(rows, e), x) <==> Fits(rows, x) && Agree(rows, e, x)
  {
    if e.orderId !in rows {
      var rows1 := InsertRow(rows, e);
      assert rows1 == rows[e.orderId := OutboxRows.NewRow(e)];
      if x.orderId !in rows1 && Fits(rows1, x) {
        assert rows1[e.orderId].eventId != x.eventId;
        forall o | o in rows ensures rows[o].eventId != x.eventId {
          assert rows1[o] == rows[o];
        }
      }
    } else {
      assert InsertRow(rows, e) == rows;
    }
  }

  lemma AgreesLater(rows: Rows, e: Event, a: Event, b: Event)
    requires Fits(rows, e) && Fits(InsertRow(rows, e), a) && Fits(InsertRow(rows, e), b)
    ensures Agree(InsertRow(rows, e), a, b) <==> Agree(rows, a, b)
  {
    FitsLater(rows, e, a);
    FitsLater(rows, e, b);
  }
}
