/** The order outbox table and the mapper that runs SQL against it. Order id and event id are unique;
    row ids come from a counter that a rolled-back insert does not give back. */
module OutboxTable {
  import opened Wrappers
  import opened SeckillTypes
  import opened OutboxRows

  type RowId = int
  type Rows = map<OrderId, Row>

  function EventIdentity(e: Event): Identity {
    Identity(e.eventId, e.voucherId, e.userId, e.autoIssued)
  }

  predicate Clashes(rows: Rows, e: Event) {
    e.orderId in rows || exists o | o in rows :: rows[o].eventId == e.eventId
  }

  /** INSERT IGNORE of one event. */
  function InsertRow(rows: Rows, e: Event): Rows {
    if Clashes(rows, e) then rows else rows[e.orderId := NewRow(e)]
  }

  function InsertRows(rows: Rows, events: seq<Event>): Rows
    decreases events
  {
    if events == [] then rows else InsertRows(InsertRow(rows, events[0]), events[1..])
  }

  function InsertedCount(rows: Rows, events: seq<Event>): (n: nat)
    ensures n <= |events|
    decreases events
  {
    if events == [] then 0
    else (if Clashes(rows, events[0]) then 0 else 1) + InsertedCount(InsertRow(rows, events[0]), events[1..])
  }

  predicate Stored(rows: Rows, e: Event) {
    e.orderId in rows && IdentityOf(rows[e.orderId]) == EventIdentity(e)
  }

  predicate AllStored(rows: Rows, events: seq<Event>) {
    forall i | 0 <= i < |events| :: Stored(rows, events[i])
  }

  ghost predicate Extends(rows: Rows, rows': Rows) {
    forall o | o in rows :: o in rows' && rows'[o] == rows[o]
  }

  lemma {:induction false} InsertRowsExtends(rows: Rows, events: seq<Event>)
    ensures Extends(rows, InsertRows(rows, events))
    decreases events
  {
    if events != [] {
      InsertRowsExtends(InsertRow(rows, events[0]), events[1..]);
    }
  }

  /** A row the insert added carries the first of the events for its order. */
  lemma {:induction false} InsertRowsAdds(rows: Rows, events: seq<Event>, o: OrderId)
    requires o in InsertRows(rows, events) && o !in rows
    ensures exists i :: 0 <= i < |events| && events[i].orderId == o && InsertRows(rows, events)[o] == NewRow(events[i])
    decreases events
  {
    if events != [] {
      var rows1 := InsertRow(rows, events[0]);
      if o in rows1 {
        InsertRowsExtends(rows1, events[1..]);
        assert InsertRows(rows, events)[o] == NewRow(events[0]);
      } else {
        InsertRowsAdds(rows1, events[1..], o);
        var i :| 0 <= i < |events[1..]| && events[1..][i].orderId == o
            && InsertRows(rows1, events[1..])[o] == NewRow(events[1..][i]);
        assert events[i + 1] == events[1..][i];
      }
    }
  }

  /** When as many rows were inserted as asked for, every event has its own new row. */
  lemma {:induction false} FullCountStoresAll(rows: Rows, events: seq<Event>)
    requires InsertedCount(rows, events) == |events|
    ensures AllStored(InsertRows(rows, events), events)
    decreases events
  {
    if events != [] {
      var rows1 := InsertRow(rows, events[0]);
      FullCountStoresAll(rows1, events[1..]);
      InsertRowsExtends(rows1, events[1..]);
      forall i | 0 <= i < |events| ensures Stored(InsertRows(rows, events), events[i]) {
        assert i > 0 ==> events[i] == events[1..][i - 1];
      }
    }
  }

  lemma {:induction false} StoredInsertsNothing(rows: Rows, events: seq<Event>)
    requires forall i | 0 <= i < |events| :: events[i].orderId in rows
    ensures InsertRows(rows, events) == rows && InsertedCount(rows, events) == 0
    decreases events
  {
    if events != [] {
      assert InsertRow(rows, events[0]) == rows;
      forall i | 0 <= i < |events[1..]| ensures events[1..][i].orderId in rows {
        assert events[1..][i] == events[i + 1];
      }
      StoredInsertsNothing(rows, events[1..]);
    }
  }

  /** If the whole batch ends up stored, so does its first event as soon as it was inserted: a row
      that blocks it by event id alone would block the later event that was to help it, too. */
  lemma FirstStoredAlone(rows: Rows, events: seq<Event>)
    requires events != [] && AllStored(InsertRows(rows, events), events)
    ensures Stored(InsertRow(rows, events[0]), events[0])
  {
    var e, rows1 := events[0], InsertRow(rows, events[0]);
    InsertRowsExtends(rows1, events[1..]);
    if e.orderId !in rows1 {
      BlockedStaysBlocked(rows1, events[1..], e);
      assert false;
    }
  }

  lemma {:induction false} BlockedStaysBlocked(rows: Rows, events: seq<Event>, e: Event)
    requires e.orderId !in rows && exists o | o in rows :: rows[o].eventId == e.eventId
    ensures !Stored(InsertRows(rows, events), e)
    decreases events
  {
    if events != [] {
      var o :| o in rows && rows[o].eventId == e.eventId;
      var rows1 := InsertRow(rows, events[0]);
      assert o in rows1 && rows1[o].eventId == e.eventId;
      if e.orderId in rows1 {
        InsertRowsExtends(rows1, events[1..]);
      } else {
        BlockedStaysBlocked(rows1, events[1..], e);
      }
    }
  }

  /** No two rows ever share an event id, and a row is refused only for an order id or event id that is
      there already. */
  lemma {:induction false} EventIdsStayUnique(rows: Rows, events: seq<Event>)
    requires forall a, b | a in rows && b in rows && rows[a].eventId == rows[b].eventId :: a == b
    ensures var rows' := InsertRows(rows, events);
            forall a, b | a in rows' && b in rows' && rows'[a].eventId == rows'[b].eventId :: a == b
    decreases events
  {
    if events == [] {
      assert InsertRows(rows, events) == rows;
    } else {
      var rows1 := InsertRow(rows, events[0]);
      forall a, b | a in rows1 && b in rows1 && rows1[a].eventId == rows1[b].eventId ensures a == b {
        assert !Clashes(rows, events[0]) ==> forall o | o in rows :: rows[o].eventId != events[0].eventId;
      }
      EventIdsStayUnique(rows1, events[1..]);
      assert InsertRows(rows, events) == InsertRows(rows1, events[1..]);
    }
  }

  lemma RefusedOnlyForDuplicates(rows: Rows, e: Event)
    requires forall o | o in rows :: o != e.orderId && rows[o].eventId != e.eventId
    ensures e.orderId in InsertRow(rows, e) && IdentityOf(InsertRow(rows, e)[e.orderId]) == EventIdentity(e)
    ensures InsertRow(rows, e).Keys == rows.Keys + {e.orderId}
  {
    assert e.orderId !in rows && !Clashes(rows, e);
  }

  // ---- The table with its row ids ----

  datatype Table = Table(rows: Rows, ids: map<OrderId, RowId>, nextId: RowId)

  ghost predicate Valid(t: Table) {
    && t.ids.Keys == t.rows.Keys
    && (forall o | o in t.ids :: t.ids[o] < t.nextId)
    && (forall a, b | a in t.ids && b in t.ids && a != b :: t.ids[a] != t.ids[b])
  }

  function Insert(t: Table, e: Event): Table {
    if Clashes(t.rows, e) then t.(nextId := t.nextId + 1)
    else Table(t.rows[e.orderId := NewRow(e)], t.ids[e.orderId := t.nextId], t.nextId + 1)
  }

  function InsertAll(t: Table, events: seq<Event>): Table
    decreases events
  {
    if events == [] then t else InsertAll(Insert(t, events[0]), events[1..])
  }

  /** Row ids stay unique, existing rows keep theirs, and which rows are stored does not depend on them. */
  lemma {:induction false} InsertAllRight(t: Table, events: seq<Event>)
    requires Valid(t)
    ensures Valid(InsertAll(t, events)) && InsertAll(t, events).rows == InsertRows(t.rows, events)
    ensures InsertAll(t, events).nextId == t.nextId + |events|
    ensures forall o | o in t.ids :: o in InsertAll(t, events).ids && InsertAll(t, events).ids[o] == t.ids[o]
    decreases events
  {
    if events != [] {
      InsertAllRight(Insert(t, events[0]), events[1..]);
    }
  }

  /** An UPDATE of the rows of the selected orders. */
  function UpdateRows(rows: Rows, selected: set<OrderId>, st: Statement, now: Time): (rows': Rows)
    ensures rows'.Keys == rows.Keys
  {
    map o | o in rows :: if o in selected then Update(st, rows[o], now) else rows[o]
  }

  function Matching(rows: Rows, selected: set<OrderId>, st: Statement, now: Time): set<OrderId> {
    set o | o in rows && o in selected && Guard(st, rows[o], now)
  }

  function Matched(rows: Rows, selected: set<OrderId>, st: Statement, now: Time): nat {
    |Matching(rows, selected, st, now)|
  }

  function OrdersOf(t: Table, ids: set<RowId>): set<OrderId> {
    set o | o in t.ids && t.ids[o] in ids
  }

  class OutboxMapper {
    var table: Table

    method InsertIgnoreBatch(events: seq<Event>) returns (inserted: nat)
      requires Valid(table)
      modifies this
      ensures Valid(table) && table == InsertAll(old(table), events)
      ensures table.rows == InsertRows(old(table).rows, events)
      ensures inserted == InsertedCount(old(table).rows, events)
    {
      inserted := InsertedCount(table.rows, events);
      InsertAllRight(table, events);
      table := InsertAll(table, events);
    }

    function FindByOrderIds(orderIds: seq<OrderId>): (found: map<OrderId, Row>)
      reads this
      ensures found.Keys == table.rows.Keys * Set(orderIds)
      ensures forall o | o in found :: found[o] == table.rows[o]
    {
      map o | o in table.rows && o in Set(orderIds) :: table.rows[o]
    }

    // A rolled-back transaction gives its rows back, but not the row ids it used up.
    method Rollback(rows: Rows, ids: map<OrderId, RowId>)
      requires Valid(Table(rows, ids, table.nextId))
      modifies this
      ensures table == Table(rows, ids, old(table).nextId)
    {
      table := table.(rows := rows, ids := ids);
    }

    // An UPDATE by order id; the count is of the rows its WHERE clause matches.
    method UpdateByOrderIds(orderIds: set<OrderId>, st: Statement, now: Time) returns (matched: nat)
      requires Valid(table)
      modifies this
      ensures Valid(table) && table == old(table).(rows := UpdateRows(old(table).rows, orderIds, st, now))
      ensures matched == Matched(old(table).rows, orderIds, st, now)
    {
      matched := Matched(table.rows, orderIds, st, now);
      table := table.(rows := UpdateRows(table.rows, orderIds, st, now));
    }

    // An UPDATE by row id.
    method UpdateByIds(ids: set<RowId>, st: Statement, now: Time) returns (matched: nat)
      requires Valid(table)
      modifies this
      ensures Valid(table)
      ensures table == old(table).(rows := UpdateRows(old(table).rows, OrdersOf(old(table), ids), st, now))
      ensures matched == Matched(old(table).rows, OrdersOf(old(table), ids), st, now)
    {
      matched := UpdateByOrderIds(OrdersOf(table, ids), st, now);
    }
  }
}
