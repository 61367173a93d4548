/** Sends claimed outbox rows to Kafka and writes back, row by row, what became of each send. */
module OutboxRelay {
  import opened Wrappers
  import opened SeckillTypes
  import opened OutboxRows
  import opened OutboxTable
  import opened OrderConsumer
  import EffectivelyOnce

  // A row as the relay read it.
  datatype Claimed = Claimed(id: RowId, orderId: OrderId, row: Row)

  // What becomes of one send: refused at once, acknowledged in time, or neither (an error, a timeout
  // or an interrupt; the broker may have the message or not).
  datatype SendFate = Refused(error: string) | Acknowledged | Unconfirmed(error: string)

  const DEADLOCK_RETRIES := 3

  function ToMessage(e: Claimed): Message {
    Message(Some(e.id), e.orderId, e.row.voucherId, e.row.userId)
  }

  function Pow2(n: nat): nat {
    if n == 0 then 1 else 2 * Pow2(n - 1)
  }

  function Min(a: int, b: int): int {
    if a < b then a else b
  }

  function BackoffSeconds(retryCount: nat, initial: int, max: int): int {
    Min(max, initial * Pow2(Min(retryCount, 20)))
  }

  /** The wait is the initial one at first, twice the last one after each further failure, and the maximum
      as soon as that would exceed it; after twenty failures it grows no more. */
  lemma BackoffDoubles(n: nat, initial: int, max: int)
    requires initial >= 0
    ensures BackoffSeconds(0, initial, max) == if initial < max then initial else max
    ensures n < 20 ==>
              var last := BackoffSeconds(n, initial, max);
              BackoffSeconds(n + 1, initial, max) == if last < max && 2 * last < max then 2 * last else max
    ensures n >= 20 ==> BackoffSeconds(n, initial, max) == BackoffSeconds(20, initial, max)
  {
    assert Pow2(0) == 1 && initial * Pow2(0) == initial;
    if n < 20 {
      DoubleProduct(initial, Pow2(n));
      var last, next := initial * Pow2(n), initial * Pow2(n + 1);
      assert next == 2 * last && last >= 0 && Min(n, 20) == n && Min(n + 1, 20) == n + 1;
      hide Pow2;
    } else {
      hide Pow2;
    }
  }

  lemma DoubleProduct(a: int, p: nat)
    requires a >= 0
    ensures a * (2 * p) == 2 * (a * p) && a * p >= 0
  {
  }

  function Truncate(s: string): string {
    if |s| <= 500 then s else s[..500]
  }

  ghost predicate DistinctEvents(events: seq<Claimed>) {
    forall i, j | 0 <= i < j < |events| :: events[i].id != events[j].id
  }

  function Failures(fates: seq<SendFate>): (last: string)
  {
    if fates == [] then ""
    else
      var n := |fates| - 1;
      if fates[n].Acknowledged? then Failures(fates[..n]) else Truncate(fates[n].error)
  }

  /** What is noted as the error is the beginning of the last failure's message, and fits the column. */
  lemma {:induction false} LastErrorFits(fates: seq<SendFate>)
    ensures |Failures(fates)| <= 500
    ensures fates != [] && !fates[|fates| - 1].Acknowledged? ==>
              var error := fates[|fates| - 1].error;
              Failures(fates) <= error && (|error| <= 500 ==> Failures(fates) == error)
  {
    if fates != [] {
      LastErrorFits(fates[..|fates| - 1]);
    }
  }

  function DueOrders(t: Table, now: Time): set<OrderId> {
    set o | o in t.rows && Dispatchable(t.rows[o], now)
  }

  /** The due rows with the smallest row ids, in their order, as many as the limit allows. */
  ghost predicate OldestDue(t: Table, orders: seq<OrderId>, limit: nat, now: Time)
    requires Valid(t)
  {
    && |orders| <= limit
    && (forall i | 0 <= i < |orders| :: orders[i] in t.rows && orders[i] in DueOrders(t, now))
    && (forall i, j | 0 <= i < j < |orders| :: t.ids[orders[i]] < t.ids[orders[j]])
    && (forall o | o in DueOrders(t, now) && o !in orders ::
          |orders| == limit && forall i | 0 <= i < |orders| :: t.ids[orders[i]] < t.ids[o])
  }

  /** Which rows are selected, in terms of their columns: PENDING or SENT, with the retry time reached and
      no lease that still runs; and of those that are, only rows beyond the limit are not. */
  lemma SelectedExactly(t: Table, orders: seq<OrderId>, limit: nat, now: Time, o: OrderId)
    requires Valid(t) && OldestDue(t, orders, limit, now)
    ensures o in orders ==>
              && o in t.rows && (t.rows[o].status == Pending || t.rows[o].status == Sent)
              && t.rows[o].nextRetryTime <= now
              && (t.rows[o].relayLeaseUntil.Some? ==> t.rows[o].relayLeaseUntil.value < now)
    ensures && o in t.rows && (t.rows[o].status == Pending || t.rows[o].status == Sent)
            && t.rows[o].nextRetryTime <= now
            && (t.rows[o].relayLeaseUntil.Some? ==> t.rows[o].relayLeaseUntil.value < now) ==>
              o in orders || (|orders| == limit && forall i | 0 <= i < |orders| :: t.ids[orders[i]] < t.ids[o])
  {
    if o in orders {
      var i :| 0 <= i < |orders| && orders[i] == o;
      assert orders[i] in DueOrders(t, now);
    }
    assert o in t.rows && Dispatchable(t.rows[o], now) ==> o in DueOrders(t, now);
  }

  predicate OldestOf(t: Table, c: set<OrderId>, o: OrderId) {
    o in c && o in t.ids && forall x | x in c && x in t.ids :: t.ids[o] <= t.ids[x]
  }

  lemma {:induction false} SomeIsOldest(t: Table, c: set<OrderId>)
    requires c != {} && forall o | o in c :: o in t.ids
    ensures exists o :: OldestOf(t, c, o)
  {
    var a := SomeElement(c);
    var rest := c - {a};
    assert forall x :: x in c <==> x in rest || x == a;
    if rest == {} {
      assert OldestOf(t, c, a);
    } else {
      SomeIsOldest(t, rest);
      var b :| OldestOf(t, rest, b);
      assert OldestOf(t, c, if t.ids[a] < t.ids[b] then a else b);
    }
  }

  function Oldest(t: Table, c: set<OrderId>): (o: OrderId)
    requires Valid(t) && c != {} && forall o | o in c :: o in t.ids
    ensures OldestOf(t, c, o) && forall x | x in c && x != o :: t.ids[o] < t.ids[x]
  {
    SomeIsOldest(t, c);
    var o :| o in c && OldestOf(t, c, o);
    o
  }

  predicate AllInTable(t: Table, orders: seq<OrderId>) {
    forall i | 0 <= i < |orders| :: orders[i] in t.rows && orders[i] in t.ids
  }

  function EventsOf(t: Table, orders: seq<OrderId>): (events: seq<Claimed>)
    requires AllInTable(t, orders)
    ensures |events| == |orders|
    ensures forall i | 0 <= i < |orders| :: events[i] == Claimed(t.ids[orders[i]], orders[i], t.rows[orders[i]])
  {
    seq(|orders|, i requires 0 <= i < |orders| => Claimed(t.ids[orders[i]], orders[i], t.rows[orders[i]]))
  }

  lemma OneMore(s: seq<RowId>, more: bool, x: RowId, id: RowId)
    ensures multiset(s + (if more then [x] else []))[id] == multiset(s)[id] + if more && x == id then 1 else 0
  {
    if more {
      assert multiset(s + [x]) == multiset(s) + multiset{x};
    } else {
      assert s + [] == s;
    }
  }

  lemma NotIn(s: seq<RowId>, id: RowId)
    requires id !in s
    ensures multiset(s)[id] == 0
  {
    assert id !in multiset(s);
  }

  function FatesOf(events: seq<Claimed>, fates: RowId -> SendFate): (r: seq<SendFate>)
    ensures |r| == |events|
  {
    seq(|events|, i requires 0 <= i < |events| => fates(events[i].id))
  }

  function RowIds(t: Table, orders: seq<OrderId>): set<RowId>
    requires AllInTable(t, orders)
  {
    set i | 0 <= i < |orders| :: t.ids[orders[i]]
  }

  lemma OrdersOfIds(t: Table, orders: seq<OrderId>)
    requires Valid(t) && AllInTable(t, orders)
    ensures OrdersOf(t, RowIds(t, orders)) == Set(orders)
  {
    forall o | o in orders ensures o in OrdersOf(t, RowIds(t, orders)) {
      var i :| 0 <= i < |orders| && orders[i] == o;
      assert t.ids[orders[i]] in RowIds(t, orders);
    }
    forall o | o in OrdersOf(t, RowIds(t, orders)) ensures o in orders {
      var i :| 0 <= i < |orders| && t.ids[orders[i]] == t.ids[o];
      assert orders[i] in t.ids && o in t.ids && orders[i] == o;
    }
  }

  // ---- The table between two statements of a relay ----

  datatype Action =
    | Inserts(events: seq<Event>)
    | Updates(orders: set<OrderId>, statement: Statement, now: Time)

  // What others do between the select, the claim, the read of the claimed rows and the writing back.
  datatype Meanwhile = Meanwhile(afterSelect: seq<Action>, afterClaim: seq<Action>, afterRead: seq<Action>)

  function Elapsed(t: Table, others: seq<Action>): Table
    decreases |others|
  {
    if others == [] then t
    else
      var t1 :=
        match others[0]
        case Inserts(events) => InsertAll(t, events)
        case Updates(orders, st, now) => t.(rows := UpdateRows(t.rows, orders, st, now));
      Elapsed(t1, others[1..])
  }

  /** Whatever others do, rows stay where they are, under the same row ids. */
  lemma {:induction false} OthersKeep(t: Table, others: seq<Action>)
    requires Valid(t)
    ensures Valid(Elapsed(t, others))
    ensures forall o | o in t.ids :: o in Elapsed(t, others).ids && Elapsed(t, others).ids[o] == t.ids[o]
    ensures Elapsed(t, others).nextId >= t.nextId
    decreases |others|
  {
    if others != [] {
      match others[0] {
        case Inserts(events) =>
          InsertAllRight(t, events);
          OthersKeep(InsertAll(t, events), others[1..]);
        case Updates(orders, st, now) =>
          OthersKeep(t.(rows := UpdateRows(t.rows, orders, st, now)), others[1..]);
      }
    }
  }

  // Row ids name the same orders later on.
  lemma SameOrders(t: Table, t': Table, orders: seq<OrderId>)
    requires Valid(t) && Valid(t') && AllInTable(t, orders)
    requires forall o | o in t.ids :: o in t'.ids && t'.ids[o] == t.ids[o]
    ensures OrdersOf(t', RowIds(t, orders)) == Set(orders)
  {
    forall i | 0 <= i < |orders|
      ensures orders[i] in t'.rows && orders[i] in t'.ids && t'.ids[orders[i]] == t.ids[orders[i]]
    {
      var o := orders[i];
      assert o in t.ids && o in t'.ids && o in t'.ids.Keys;
    }
    assert RowIds(t', orders) == RowIds(t, orders);
    OrdersOfIds(t', orders);
  }

  // ---- Rows that wait for their time ----

  // Nobody's row, and not to be sent before a time.
  predicate Rests(r: Row, until: Time) {
    r.relayOwner.None? && r.relayLeaseUntil.None? && r.nextRetryTime >= until
  }

  // Nobody requeues the order, and claims are made before the time.
  predicate Undisturbed(others: seq<Action>, o: OrderId, until: Time) {
    forall k | 0 <= k < |others| && others[k].Updates? && o in others[k].orders ::
      !others[k].statement.RequeueAccepted? && (others[k].statement.Claim? ==> others[k].now < until)
  }

  /** Whatever relays, consumers and reviews do before the time, a row that rests goes on resting. */
  lemma {:induction false} RowsRest(t: Table, others: seq<Action>, o: OrderId, until: Time)
    requires Valid(t) && o in t.rows && Rests(t.rows[o], until) && Undisturbed(others, o, until)
    ensures o in Elapsed(t, others).rows && Rests(Elapsed(t, others).rows[o], until)
    decreases |others|
  {
    if others != [] {
      assert Undisturbed(others[1..], o, until) by {
        assert forall k | 0 <= k < |others[1..]| :: others[1..][k] == others[k + 1];
      }
      match others[0] {
        case Inserts(events) =>
          InsertAllRight(t, events);
          InsertRowsExtends(t.rows, events);
          RowsRest(InsertAll(t, events), others[1..], o, until);
        case Updates(orders, st, now) =>
          assert others[0].Updates?;
          RowsRest(t.(rows := UpdateRows(t.rows, orders, st, now)), others[1..], o, until);
      }
    }
  }

  /** And no relay selects it before the time, so none claims it or sends its message. */
  lemma RestingIsNotSelected(
    t: Table, others: seq<Action>, o: OrderId, until: Time, orders: seq<OrderId>, limit: nat, now: Time)
    requires Valid(t) && o in t.rows && Rests(t.rows[o], until) && Undisturbed(others, o, until)
    requires Valid(Elapsed(t, others)) && OldestDue(Elapsed(t, others), orders, limit, now) && now < until
    ensures o !in orders
  {
    RowsRest(t, others, o, until);
    SelectedExactly(Elapsed(t, others), orders, limit, now, o);
  }

  /** A new row is due from its own time on: a relay selects it unless older rows fill the batch. */
  lemma NewRowIsSelected(t: Table, e: Event, orders: seq<OrderId>, limit: nat, now: Time)
    requires Valid(t) && !Clashes(t.rows, e) && e.at <= now
    requires Valid(Insert(t, e)) && OldestDue(Insert(t, e), orders, limit, now)
    ensures e.orderId in orders || |orders| == limit
  {
    SelectedExactly(Insert(t, e), orders, limit, now, e.orderId);
  }

  // ---- Rows a relay holds ----

  // Leased to the owner until a time, or not to be sent any more.
  predicate Held(r: Row, owner: string, until: Time) {
    (r.relayOwner == Some(owner) && r.relayLeaseUntil == Some(until)) || (r.status != Pending && r.status != Sent)
  }

  // The owner itself writes nothing back, nobody requeues the order, and claims are made while the lease
  // lasts.
  predicate Unreleased(others: seq<Action>, o: OrderId, owner: string, until: Time) {
    forall k | 0 <= k < |others| && others[k].Updates? && o in others[k].orders ::
      var st := others[k].statement;
      && !st.RequeueAccepted? && (st.Claim? ==> others[k].now <= until)
      && (st.MarkSent? || st.ScheduleRetry? ==> st.owner != owner)
  }

  /** A row that is held stays so, whatever other relays, consumers and reviews do during the lease. */
  lemma {:induction false} RowsAreHeld(t: Table, others: seq<Action>, o: OrderId, owner: string, until: Time)
    requires Valid(t) && o in t.rows && Held(t.rows[o], owner, until) && Unreleased(others, o, owner, until)
    ensures o in Elapsed(t, others).rows && Held(Elapsed(t, others).rows[o], owner, until)
    decreases |others|
  {
    if others != [] {
      assert Unreleased(others[1..], o, owner, until) by {
        assert forall k | 0 <= k < |others[1..]| :: others[1..][k] == others[k + 1];
      }
      match others[0] {
        case Inserts(events) =>
          InsertAllRight(t, events);
          InsertRowsExtends(t.rows, events);
          RowsAreHeld(InsertAll(t, events), others[1..], o, owner, until);
        case Updates(orders, st, now) =>
          assert others[0].Updates?;
          RowsAreHeld(t.(rows := UpdateRows(t.rows, orders, st, now)), others[1..], o, owner, until);
      }
    }
  }

  class SeckillOrderOutboxRelay {
    const outboxMapper: OutboxMapper
    const owner: string
    const leaseSeconds: int
    const sentRecheckSeconds: int
    const initialBackoffSeconds: int
    const maxBackoffSeconds: int
    var log: seq<Message>

    constructor (
      outboxMapper: OutboxMapper, owner: string, leaseSeconds: int, sentRecheckSeconds: int,
      initialBackoffSeconds: int, maxBackoffSeconds: int)
      ensures this.outboxMapper == outboxMapper && this.owner == owner
      ensures this.leaseSeconds == leaseSeconds && this.sentRecheckSeconds == sentRecheckSeconds
      ensures this.initialBackoffSeconds == initialBackoffSeconds && this.maxBackoffSeconds == maxBackoffSeconds
      ensures log == []
    {
      this.outboxMapper, this.owner := outboxMapper, owner;
      this.leaseSeconds, this.sentRecheckSeconds := leaseSeconds, sentRecheckSeconds;
      this.initialBackoffSeconds, this.maxBackoffSeconds := initialBackoffSeconds, maxBackoffSeconds;
      log := [];
    }

    function Backoff(e: Claimed): int {
      BackoffSeconds(e.row.retryCount, initialBackoffSeconds, maxBackoffSeconds)
    }

    // The statement that the outcome of its send calls for.
    function StatementFor(e: Claimed, fate: SendFate, error: string, now: Time): Statement {
      if fate.Acknowledged? then MarkSent(owner, now + sentRecheckSeconds)
      else ScheduleRetry(owner, now + Backoff(e), error)
    }

    /** A round among others who change the table between the statements: the rows that are due, oldest
        first, are claimed as far as they are still due, and what is sent is built from those of them that
        are this relay's own when it reads them. Nothing is read if no row was claimed. */
    method RelayPending(limit: nat, others: Meanwhile, fates: RowId -> SendFate, deadlocks: nat, now: Time)
      returns (done: bool, ghost orders: seq<OrderId>)
      requires Valid(outboxMapper.table)
      modifies this`log, outboxMapper
      ensures Valid(outboxMapper.table)
      ensures OldestDue(old(outboxMapper.table), orders, limit, now)
      ensures orders == [] ==> outboxMapper.table == old(outboxMapper.table) && log == old(log)
      ensures orders != [] ==>
                var t := Elapsed(old(outboxMapper.table), others.afterSelect);
                var claimed := AfterClaim(t, orders, now);
                if forall o | o in orders :: !(o in t.rows && Dispatchable(t.rows[o], now))
                then outboxMapper.table == t && log == old(log)
                else
                  var read := Elapsed(claimed, others.afterClaim);
                  var written := Elapsed(read, others.afterRead);
                  AllInTable(read, Owned(read, orders)) && Valid(written)
                  && var events := EventsOf(read, Owned(read, orders));
                  && log == old(log) + Taken(events, FatesOf(events, fates))
                  && outboxMapper.table
                     == if done
                        then written.(rows := Dispatched(written, events, FatesOf(events, fates), now)) else written
    {
      var found := FindDispatchable(outboxMapper.table, limit, now);
      orders := found;
      if found == [] {
        return true, orders;
      }
      var candidateIds := RowIds(outboxMapper.table, found);
      OrdersOfIds(outboxMapper.table, found);
      OthersKeep(outboxMapper.table, others.afterSelect);
      SameOrders(outboxMapper.table, Elapsed(outboxMapper.table, others.afterSelect), found);
      OthersAct(others.afterSelect);
      ghost var t := outboxMapper.table;
      var claimedCount := outboxMapper.UpdateByIds(candidateIds, Claim(owner, now + leaseSeconds), now);
      NoneClaimed(t, found, now);
      if claimedCount == 0 {
        return true, orders;
      }
      done := DispatchOwned(found, others, fates, deadlocks, now);
    }

    // What follows the claim.
    method DispatchOwned(orders: seq<OrderId>, others: Meanwhile, fates: RowId -> SendFate, deadlocks: nat, now: Time)
      returns (done: bool)
      requires Valid(outboxMapper.table) && NoRepeats(orders)
      modifies this`log, outboxMapper
      ensures Valid(outboxMapper.table)
      ensures var read := Elapsed(old(outboxMapper.table), others.afterClaim);
              var written := Elapsed(read, others.afterRead);
              AllInTable(read, Owned(read, orders)) && Valid(written)
              && var events := EventsOf(read, Owned(read, orders));
              && log == old(log) + Taken(events, FatesOf(events, fates))
              && outboxMapper.table
                 == if done then written.(rows := Dispatched(written, events, FatesOf(events, fates), now)) else written
    {
      hide Owned, Elapsed, Dispatched, Taken, EventsOf, DistinctEvents;
      OthersAct(others.afterClaim);
      var claimed := FindClaimedBatch(outboxMapper.table, orders);
      OwnedAreDistinct(outboxMapper.table, orders);
      OthersAct(others.afterRead);
      done := true;
      if claimed != [] {
        done := DispatchBatch(claimed, FatesOf(claimed, fates), deadlocks, now);
      } else {
        NothingDispatched(outboxMapper.table, fates, now);
      }
    }

    // What others do to the table while this relay does nothing.
    method OthersAct(others: seq<Action>)
      requires Valid(outboxMapper.table)
      modifies outboxMapper
      ensures Valid(outboxMapper.table) && outboxMapper.table == Elapsed(old(outboxMapper.table), others)
    {
      OthersKeep(outboxMapper.table, others);
      outboxMapper.table := Elapsed(outboxMapper.table, others);
    }

    // ORDER BY id ASC LIMIT.
    static method FindDispatchable(t: Table, limit: nat, now: Time) returns (orders: seq<OrderId>)
      requires Valid(t)
      ensures OldestDue(t, orders, limit, now)
    {
      orders := [];
      var left := DueOrders(t, now);
      while |orders| < limit && left != {}
        invariant left <= DueOrders(t, now) && |orders| <= limit
        invariant AllInTable(t, orders) && forall i | 0 <= i < |orders| :: orders[i] in DueOrders(t, now)
        invariant forall o :: o in DueOrders(t, now) <==> o in left || o in orders
        invariant forall i, o | 0 <= i < |orders| && o in left :: t.ids[orders[i]] < t.ids[o]
        invariant forall i, j | 0 <= i < j < |orders| :: t.ids[orders[i]] < t.ids[orders[j]]
        decreases left
      {
        var o := Oldest(t, left);
        orders, left := orders + [o], left - {o};
      }
    }

    // The candidates this relay owns.
    function Owned(t: Table, orders: seq<OrderId>): seq<OrderId> {
      if orders == [] then []
      else
        var n := |orders| - 1;
        Owned(t, orders[..n])
        + if orders[n] in t.rows && t.rows[orders[n]].relayOwner == Some(owner) then [orders[n]] else []
    }

    lemma {:induction false} OwnedRight(t: Table, orders: seq<OrderId>)
      ensures forall o :: o in Owned(t, orders) <==> o in orders && o in t.rows && t.rows[o].relayOwner == Some(owner)
      ensures Valid(t) ==> AllInTable(t, Owned(t, orders))
      decreases |orders|
    {
      if orders != [] {
        OwnedRight(t, orders[..|orders| - 1]);
      }
    }

    lemma {:induction false} OwnedOnce(t: Table, orders: seq<OrderId>)
      requires NoRepeats(orders)
      ensures NoRepeats(Owned(t, orders))
      decreases |orders|
    {
      if orders != [] {
        var n := |orders| - 1;
        OwnedRight(t, orders[..n]);
        OwnedOnce(t, orders[..n]);
        assert orders[n] !in orders[..n];
      }
    }

    lemma OwnedAreDistinct(t: Table, orders: seq<OrderId>)
      requires Valid(t) && NoRepeats(orders)
      ensures AllInTable(t, Owned(t, orders)) && DistinctEvents(EventsOf(t, Owned(t, orders)))
    {
      OwnedRight(t, orders);
      OwnedOnce(t, orders);
      hide Owned;
    }

    // The rows this relay owns among the candidates.
    method FindClaimedBatch(t: Table, orders: seq<OrderId>) returns (events: seq<Claimed>)
      requires Valid(t)
      ensures AllInTable(t, Owned(t, orders)) && events == EventsOf(t, Owned(t, orders))
    {
      events := [];
      for i := 0 to |orders|
        invariant AllInTable(t, Owned(t, orders[..i])) && events == EventsOf(t, Owned(t, orders[..i]))
      {
        assert orders[..i + 1][..i] == orders[..i];
        if orders[i] in t.rows && t.rows[orders[i]].relayOwner == Some(owner) {
          events := events + [Claimed(t.ids[orders[i]], orders[i], t.rows[orders[i]])];
        }
      }
      assert orders[..|orders|] == orders;
    }

    lemma NoneClaimed(t: Table, orders: seq<OrderId>, now: Time)
      ensures Matched(t.rows, Set(orders), Claim(owner, now + leaseSeconds), now) == 0
         <==> forall o | o in orders :: !(o in t.rows && Dispatchable(t.rows[o], now))
      ensures Matched(t.rows, Set(orders), Claim(owner, now + leaseSeconds), now) == 0 ==> AfterClaim(t, orders, now) == t
    {
      var st := Claim(owner, now + leaseSeconds);
      var matching := Matching(t.rows, Set(orders), st, now);
      if matching == {} {
        forall o | o in orders ensures !(o in t.rows && Dispatchable(t.rows[o], now)) {
          assert o !in matching;
        }
        forall o | o in t.rows && o in orders ensures Update(st, t.rows[o], now) == t.rows[o] {
          assert o !in matching;
        }
      } else {
        var o := SomeElement(matching);
        assert o in orders && o in t.rows && Dispatchable(t.rows[o], now);
      }
    }

    lemma NothingDispatched(t: Table, fates: RowId -> SendFate, now: Time)
      requires Valid(t)
      ensures Dispatched(t, [], [], now) == t.rows && FatesOf([], fates) == [] && Taken([], []) == []
    {
      assert forall o | o in t.rows :: EventAt([], t.ids[o]).None?;
    }

    function AfterClaim(t: Table, orders: seq<OrderId>, now: Time): Table {
      t.(rows := UpdateRows(t.rows, Set(orders), Claim(owner, now + leaseSeconds), now))
    }

    /** What a claim makes of a row, column by column: a selected row that is still due is this relay's until
        the lease is over; no other changes. */
    lemma ClaimedExactly(t: Table, orders: seq<OrderId>, now: Time, o: OrderId)
      requires o in t.rows
      ensures var r, r' := t.rows[o], AfterClaim(t, orders, now).rows[o];
              if && o in orders && (r.status == Pending || r.status == Sent) && r.nextRetryTime <= now
                 && (r.relayLeaseUntil.Some? ==> r.relayLeaseUntil.value < now)
              then r' == r.(relayOwner := Some(owner), relayLeaseUntil := Some(now + leaseSeconds))
              else r' == r
    {
    }

    /** So no relay, this one included, selects it before the lease is over, unless its owner has written
        it back or it was requeued. */
    lemma ClaimedIsNotSelected(
      t: Table, orders: seq<OrderId>, o: OrderId, now: Time, others: seq<Action>, again: seq<OrderId>, limit: nat,
      later: Time)
      requires o in t.rows && o in orders && Dispatchable(t.rows[o], now) && later <= now + leaseSeconds
      requires Valid(AfterClaim(t, orders, now)) && Unreleased(others, o, owner, now + leaseSeconds)
      requires var t' := Elapsed(AfterClaim(t, orders, now), others); Valid(t') && OldestDue(t', again, limit, later)
      ensures o !in again
    {
      ClaimedExactly(t, orders, now, o);
      RowsAreHeld(AfterClaim(t, orders, now), others, o, owner, now + leaseSeconds);
      SelectedExactly(Elapsed(AfterClaim(t, orders, now), others), again, limit, later, o);
    }

    // Hands each message to the producer, in order; the broker gets those it does not refuse.
    method SendAll(events: seq<Claimed>, fates: seq<SendFate>)
      requires |fates| == |events|
      modifies this`log
      ensures log == old(log) + Taken(events, fates)
    {
      for i := 0 to |events|
        invariant log == old(log) + Taken(events[..i], fates[..i])
      {
        assert events[..i + 1][..i] == events[..i] && fates[..i + 1][..i] == fates[..i];
        if !fates[i].Refused? {
          log := log + [ToMessage(events[i])];
        }
      }
      assert events[..|events|] == events && fates[..|events|] == fates;
    }

    ghost predicate Bucketed(
      events: seq<Claimed>, fates: seq<SendFate>, backoffs: seq<int>, failedIdsByBackoff: map<int, seq<RowId>>)
      requires |fates| == |events|
    {
      && (forall b :: b in failedIdsByBackoff <==> b in backoffs)
      && (forall b :: b in failedIdsByBackoff <==> FailedIds(events, fates, b) != [])
      && (forall b | b in failedIdsByBackoff :: failedIdsByBackoff[b] == FailedIds(events, fates, b))
    }

    lemma NextBucketed(
      events: seq<Claimed>, fates: seq<SendFate>, i: nat, backoffs: seq<int>, failed: map<int, seq<RowId>>)
      requires i < |events| == |fates| && Bucketed(events[..i], fates[..i], backoffs, failed)
      ensures fates[i].Acknowledged? ==> Bucketed(events[..i + 1], fates[..i + 1], backoffs, failed)
      ensures var b := Backoff(events[i]);
              !fates[i].Acknowledged? ==>
                if b in failed
                then Bucketed(events[..i + 1], fates[..i + 1], backoffs, failed[b := failed[b] + [events[i].id]])
                else Bucketed(events[..i + 1], fates[..i + 1], backoffs + [b], failed[b := [events[i].id]])
    {
      hide FailedIds;
      forall b ensures FailedIds(events[..i + 1], fates[..i + 1], b)
                    == FailedIds(events[..i], fates[..i], b)
                       + (if !fates[i].Acknowledged? && Backoff(events[i]) == b then [events[i].id] else []) {
        FailedOfMore(events, fates, i, b);
      }
    }

    lemma FailedOfMore(events: seq<Claimed>, fates: seq<SendFate>, i: nat, b: int)
      requires i < |events| == |fates|
      ensures FailedIds(events[..i + 1], fates[..i + 1], b)
           == FailedIds(events[..i], fates[..i], b)
              + (if !fates[i].Acknowledged? && Backoff(events[i]) == b then [events[i].id] else [])
    {
      assert fates[..i + 1][..i] == fates[..i] && events[..i + 1][..i] == events[..i];
    }

    /** Every event goes to exactly one place: the sent ids, or the bucket of its own backoff. */
    method Await(events: seq<Claimed>, fates: seq<SendFate>)
      returns (sentIds: seq<RowId>, backoffs: seq<int>, failedIdsByBackoff: map<int, seq<RowId>>, lastError: string)
      requires |fates| == |events|
      ensures sentIds == SentIds(events, fates) && lastError == Failures(fates)
      ensures Bucketed(events, fates, backoffs, failedIdsByBackoff)
    {
      sentIds, backoffs, failedIdsByBackoff, lastError := [], [], map[], "";
      for i := 0 to |events|
        invariant sentIds == SentIds(events[..i], fates[..i]) && lastError == Failures(fates[..i])
        invariant Bucketed(events[..i], fates[..i], backoffs, failedIdsByBackoff)
      {
        hide Bucketed, FailedIds, BackoffSeconds, Truncate;
        NextBucketed(events, fates, i, backoffs, failedIdsByBackoff);
        assert fates[..i + 1][..i] == fates[..i] && events[..i + 1][..i] == events[..i];
        if fates[i].Acknowledged? {
          sentIds := sentIds + [events[i].id];
        } else {
          var backoff := Backoff(events[i]);
          if backoff !in failedIdsByBackoff {
            backoffs, failedIdsByBackoff := backoffs + [backoff], failedIdsByBackoff[backoff := [events[i].id]];
          } else {
            failedIdsByBackoff := failedIdsByBackoff[backoff := failedIdsByBackoff[backoff] + [events[i].id]];
          }
          lastError := Truncate(fates[i].error);
        }
      }
      assert fates[..|events|] == fates && events[..|events|] == events;
    }

    /** Each row still owned is marked sent if its message was acknowledged and gets its own retry time
        if not; rows the relay has lost are not touched. When marking fails for good nothing changes. */
    method DispatchBatch(events: seq<Claimed>, fates: seq<SendFate>, deadlocks: nat, now: Time) returns (done: bool)
      requires |fates| == |events| && DistinctEvents(events)
      requires Valid(outboxMapper.table)
      modifies this`log, outboxMapper
      ensures Valid(outboxMapper.table) && outboxMapper.table == old(outboxMapper.table).(rows := outboxMapper.table.rows)
      ensures log == old(log) + Taken(events, fates)
      ensures done <==> deadlocks < 3 || forall i | 0 <= i < |fates| :: !fates[i].Acknowledged?
      ensures outboxMapper.table.rows == if done then Dispatched(old(outboxMapper.table), events, fates, now)
                                         else old(outboxMapper.table.rows)
    {
      ghost var t := outboxMapper.table;
      SendAll(events, fates);
      var sentIds, backoffs, failedIdsByBackoff, lastError := Await(events, fates);
      SomeSent(events, fates);
      AfterMarking(t, events, fates, now);
      if sentIds != [] {
        var marked := MarkSentWithDeadlockRetry(sentIds, now + sentRecheckSeconds, deadlocks, now);
        if !marked {
          return false;
        }
      }
      assert backoffs[..0] == [];
      for k := 0 to |backoffs|
        invariant log == old(log) + Taken(events, fates)
        invariant Valid(outboxMapper.table) && outboxMapper.table == t.(rows := outboxMapper.table.rows)
        invariant outboxMapper.table.rows == RowsAfter(t, events, fates, backoffs[..k], now)
      {
        AfterBackoff(t, outboxMapper.table.rows, events, fates, backoffs, k, now);
        var _ := outboxMapper.UpdateByIds(
          Set(failedIdsByBackoff[backoffs[k]]), ScheduleRetry(owner, now + backoffs[k], lastError), now);
      }
      assert backoffs[..|backoffs|] == backoffs;
      AfterAll(t, events, fates, backoffs, now);
      return true;
    }

    lemma SomeSent(events: seq<Claimed>, fates: seq<SendFate>)
      requires |fates| == |events|
      ensures SentIds(events, fates) == [] <==> forall i | 0 <= i < |fates| :: !fates[i].Acknowledged?
    {
      SentIdsRight(events, fates);
      assert forall i | 0 <= i < |fates| && fates[i].Acknowledged? :: events[i].id in SentIds(events, fates);
      assert SentIds(events, fates) != [] ==> SentIds(events, fates)[0] in SentIds(events, fates);
    }

    // Up to three attempts; the statement has no effect when it is chosen as the deadlock's victim.
    method MarkSentWithDeadlockRetry(ids: seq<RowId>, nextCheckTime: Time, deadlocks: nat, now: Time)
      returns (marked: bool)
      requires Valid(outboxMapper.table)
      modifies outboxMapper
      ensures Valid(outboxMapper.table)
      ensures marked <==> deadlocks < 3
      ensures var t := old(outboxMapper.table);
              outboxMapper.table == if !marked then t
                else t.(rows := UpdateRows(t.rows, OrdersOf(t, Set(ids)), MarkSent(owner, nextCheckTime), now))
    {
      var attempt := 1;
      while true
        invariant 1 <= attempt <= DEADLOCK_RETRIES && attempt <= deadlocks + 1
        invariant outboxMapper.table == old(outboxMapper.table)
        decreases DEADLOCK_RETRIES - attempt
      {
        if attempt > deadlocks {
          var _ := outboxMapper.UpdateByIds(Set(ids), MarkSent(owner, nextCheckTime), now);
          return true;
        }
        if attempt >= DEADLOCK_RETRIES {
          return false;
        }
        attempt := attempt + 1;
      }
      assert false;
    }

    // A row once the acknowledged events and those of the given backoffs have been written back.
    function RowAfter(
      r: Row, id: RowId, events: seq<Claimed>, fates: seq<SendFate>, backoffs: seq<int>, now: Time): Row
      requires |fates| == |events|
    {
      match EventAt(events, id)
      case None => r
      case Some(i) =>
        if fates[i].Acknowledged? || Backoff(events[i]) in backoffs
        then Update(StatementFor(events[i], fates[i], Failures(fates), now), r, now)
        else r
    }

    function RowsAfter(t: Table, events: seq<Claimed>, fates: seq<SendFate>, backoffs: seq<int>, now: Time): Rows
      requires |fates| == |events| && t.ids.Keys == t.rows.Keys
    {
      map o | o in t.rows :: RowAfter(t.rows[o], t.ids[o], events, fates, backoffs, now)
    }

    lemma {:induction false} NotCounted(events: seq<Claimed>, fates: seq<SendFate>, id: RowId, b: int)
      requires |fates| == |events| && forall i | 0 <= i < |events| :: events[i].id != id
      ensures multiset(SentIds(events, fates))[id] == 0 && multiset(FailedIds(events, fates, b))[id] == 0
      decreases |events|
    {
      SentIdsRight(events, fates);
      FailedIdsRight(events, fates, b);
      NotIn(SentIds(events, fates), id);
      NotIn(FailedIds(events, fates, b), id);
    }

    lemma {:induction false} SentOnce(events: seq<Claimed>, fates: seq<SendFate>, i: nat)
      requires i < |events| == |fates| && DistinctEvents(events)
      ensures multiset(SentIds(events, fates))[events[i].id] == if fates[i].Acknowledged? then 1 else 0
      decreases |events|
    {
      var n := |events| - 1;
      assert SentIds(events, fates)
          == SentIds(events[..n], fates[..n]) + (if fates[n].Acknowledged? then [events[n].id] else []);
      OneMore(SentIds(events[..n], fates[..n]), fates[n].Acknowledged?, events[n].id, events[i].id);
      if i == n {
        NotCounted(events[..n], fates[..n], events[n].id, 0);
      } else {
        SentOnce(events[..n], fates[..n], i);
      }
    }

    lemma {:induction false} FailedOnce(events: seq<Claimed>, fates: seq<SendFate>, i: nat, b: int)
      requires i < |events| == |fates| && DistinctEvents(events)
      ensures multiset(FailedIds(events, fates, b))[events[i].id]
           == if !fates[i].Acknowledged? && Backoff(events[i]) == b then 1 else 0
      decreases |events|
    {
      hide BackoffSeconds, FailedIds;
      var n := |events| - 1;
      var fails := !fates[n].Acknowledged? && Backoff(events[n]) == b;
      assert events[..n + 1] == events && fates[..n + 1] == fates;
      FailedOfMore(events, fates, n, b);
      OneMore(FailedIds(events[..n], fates[..n], b), fails, events[n].id, events[i].id);
      if i == n {
        NotCounted(events[..n], fates[..n], events[n].id, b);
      } else {
        FailedOnce(events[..n], fates[..n], i, b);
      }
    }

    /** Each event's id stands exactly once in what the relay writes back: among the sent ids if it was
        acknowledged, otherwise in the bucket of its own backoff and in no other. */
    lemma ExactlyOnce(events: seq<Claimed>, fates: seq<SendFate>, i: nat)
      requires i < |events| == |fates| && DistinctEvents(events)
      ensures multiset(SentIds(events, fates))[events[i].id]
              + multiset(FailedIds(events, fates, Backoff(events[i])))[events[i].id] == 1
      ensures events[i].id in SentIds(events, fates) <==> fates[i].Acknowledged?
      ensures forall b ::
                events[i].id in FailedIds(events, fates, b) <==> !fates[i].Acknowledged? && b == Backoff(events[i])
    {
      hide SentIds, FailedIds;
      SentOnce(events, fates, i);
      FailedOnce(events, fates, i, Backoff(events[i]));
      SentIdsRight(events, fates);
      forall b ensures events[i].id in FailedIds(events, fates, b)
          <==> !fates[i].Acknowledged? && b == Backoff(events[i])
      {
        FailedOnce(events, fates, i, b);
        assert events[i].id in FailedIds(events, fates, b) <==> multiset(FailedIds(events, fates, b))[events[i].id] > 0;
      }
    }

    /** What became of each event is written to the event's row. */
    function Dispatched(t: Table, events: seq<Claimed>, fates: seq<SendFate>, now: Time): Rows
      requires |fates| == |events| && t.ids.Keys == t.rows.Keys
    {
      map o | o in t.rows ::
        match EventAt(events, t.ids[o])
        case None => t.rows[o]
        case Some(i) => Update(StatementFor(events[i], fates[i], Failures(fates), now), t.rows[o], now)
    }

    /** What a batch writes back to a row the relay still owns, column by column: acknowledged, the row is
        SENT and to be looked at again after the recheck time; otherwise it keeps its status and is to be
        sent again after its backoff. It is nobody's then. */
    lemma WrittenBack(t: Table, events: seq<Claimed>, fates: seq<SendFate>, i: nat, o: OrderId, now: Time)
      requires Valid(t) && DistinctEvents(events) && i < |events| == |fates|
      requires o in t.rows && o in t.ids && t.ids[o] == events[i].id
      requires t.rows[o].relayOwner == Some(owner) && (t.rows[o].status == Pending || t.rows[o].status == Sent)
      ensures var r, r' := t.rows[o], Dispatched(t, events, fates, now)[o];
              && r'.relayOwner.None? && r'.relayLeaseUntil.None?
              && if fates[i].Acknowledged?
                 then r'.status == Sent && r'.nextRetryTime == now + sentRecheckSeconds && r'.sentTime == Some(now)
                      && r'.retryCount == r.retryCount && r'.lastError.None?
                 else r'.status == r.status && r'.retryCount == r.retryCount + 1
                      && r'.lastError == Some(Failures(fates))
                      && r'.nextRetryTime
                         == now + BackoffSeconds(events[i].row.retryCount, initialBackoffSeconds, maxBackoffSeconds)
    {
      hide Failures;
      assert EventAt(events, events[i].id) == Some(i);
    }

    /** So a message that was acknowledged is not sent again before the recheck time, and one that was not
        is not sent again before its backoff is over, by whichever relay, unless its row is requeued. */
    lemma SentRowsWait(
      t: Table, events: seq<Claimed>, fates: seq<SendFate>, i: nat, o: OrderId, now: Time,
      others: seq<Action>, orders: seq<OrderId>, limit: nat, later: Time)
      requires Valid(t) && DistinctEvents(events) && i < |events| == |fates|
      requires o in t.rows && o in t.ids && t.ids[o] == events[i].id
      requires t.rows[o].relayOwner == Some(owner) && (t.rows[o].status == Pending || t.rows[o].status == Sent)
      requires var wait := if fates[i].Acknowledged? then sentRecheckSeconds
                   else BackoffSeconds(events[i].row.retryCount, initialBackoffSeconds, maxBackoffSeconds);
               later < now + wait && Undisturbed(others, o, now + wait)
      requires var t' := Elapsed(t.(rows := Dispatched(t, events, fates, now)), others);
               Valid(t') && OldestDue(t', orders, limit, later)
      ensures o !in orders
    {
      hide OldestDue, Undisturbed, Elapsed, Dispatched;
      WrittenBack(t, events, fates, i, o, now);
      var wait := if fates[i].Acknowledged? then sentRecheckSeconds
          else BackoffSeconds(events[i].row.retryCount, initialBackoffSeconds, maxBackoffSeconds);
      DispatchedIsValid(t, events, fates, now);
      RestingIsNotSelected(t.(rows := Dispatched(t, events, fates, now)), others, o, now + wait, orders, limit, later);
    }

    lemma DispatchedIsValid(t: Table, events: seq<Claimed>, fates: seq<SendFate>, now: Time)
      requires Valid(t) && |fates| == |events|
      ensures Valid(t.(rows := Dispatched(t, events, fates, now)))
    {
    }

    lemma InSentIds(events: seq<Claimed>, fates: seq<SendFate>, id: RowId)
      requires |fates| == |events| && DistinctEvents(events)
      ensures id in SentIds(events, fates)
         <==> EventAt(events, id).Some? && fates[EventAt(events, id).value].Acknowledged?
    {
      SentIdsRight(events, fates);
    }

    lemma InFailedIds(events: seq<Claimed>, fates: seq<SendFate>, backoff: int, id: RowId)
      requires |fates| == |events| && DistinctEvents(events)
      ensures id in FailedIds(events, fates, backoff)
         <==> EventAt(events, id).Some? && !fates[EventAt(events, id).value].Acknowledged?
              && Backoff(events[EventAt(events, id).value]) == backoff
    {
      FailedIdsRight(events, fates, backoff);
    }

    lemma AfterMarking(t: Table, events: seq<Claimed>, fates: seq<SendFate>, now: Time)
      requires |fates| == |events| && DistinctEvents(events) && Valid(t)
      ensures UpdateRows(t.rows, OrdersOf(t, Set(SentIds(events, fates))), MarkSent(owner, now + sentRecheckSeconds), now)
           == RowsAfter(t, events, fates, [], now)
      ensures SentIds(events, fates) == [] ==> RowsAfter(t, events, fates, [], now) == t.rows
    {
      hide EventAt, SentIds;
      forall o | o in t.rows
        ensures RowAfter(t.rows[o], t.ids[o], events, fates, [], now)
             == if o in OrdersOf(t, Set(SentIds(events, fates)))
                then Update(MarkSent(owner, now + sentRecheckSeconds), t.rows[o], now) else t.rows[o]
      {
        InSentIds(events, fates, t.ids[o]);
      }
    }

    lemma AfterBackoff(
      t: Table, rows: Rows, events: seq<Claimed>, fates: seq<SendFate>, backoffs: seq<int>, k: nat, now: Time)
      requires |fates| == |events| && DistinctEvents(events) && Valid(t) && k < |backoffs|
      requires rows == RowsAfter(t, events, fates, backoffs[..k], now)
      ensures UpdateRows(rows, OrdersOf(t, Set(FailedIds(events, fates, backoffs[k]))),
                         ScheduleRetry(owner, now + backoffs[k], Failures(fates)), now)
           == RowsAfter(t, events, fates, backoffs[..k + 1], now)
    {
      hide FailedIds, EventAt;
      assert backoffs[..k + 1] == backoffs[..k] + [backoffs[k]];
      forall o | o in t.rows
        ensures RowAfter(t.rows[o], t.ids[o], events, fates, backoffs[..k + 1], now)
             == if t.ids[o] in FailedIds(events, fates, backoffs[k])
                then Update(ScheduleRetry(owner, now + backoffs[k], Failures(fates)), rows[o], now) else rows[o]
      {
        InFailedIds(events, fates, backoffs[k], t.ids[o]);
      }
    }

    lemma AfterAll(t: Table, events: seq<Claimed>, fates: seq<SendFate>, backoffs: seq<int>, now: Time)
      requires |fates| == |events| && DistinctEvents(events) && Valid(t)
      requires forall b :: b in backoffs <==> FailedIds(events, fates, b) != []
      ensures RowsAfter(t, events, fates, backoffs, now) == Dispatched(t, events, fates, now)
    {
      hide FailedIds;
      forall o | o in t.rows
        ensures RowAfter(t.rows[o], t.ids[o], events, fates, backoffs, now) == Dispatched(t, events, fates, now)[o]
      {
        var at := EventAt(events, t.ids[o]);
        if at.Some? {
          InFailedIds(events, fates, Backoff(events[at.value]), t.ids[o]);
        }
      }
    }

    lemma {:induction false} SentIdsRight(events: seq<Claimed>, fates: seq<SendFate>)
      requires |fates| == |events|
      ensures forall id :: id in SentIds(events, fates) <==>
                exists i :: 0 <= i < |events| && events[i].id == id && fates[i].Acknowledged?
      decreases |events|
    {
      if events != [] {
        SentIdsRight(events[..|events| - 1], fates[..|events| - 1]);
      }
    }

    lemma {:induction false} FailedIdsRight(events: seq<Claimed>, fates: seq<SendFate>, backoff: int)
      requires |fates| == |events|
      ensures forall id :: id in FailedIds(events, fates, backoff) <==>
                exists i :: 0 <= i < |events| && events[i].id == id && !fates[i].Acknowledged?
                    && Backoff(events[i]) == backoff
      decreases |events|
    {
      if events != [] {
        FailedIdsRight(events[..|events| - 1], fates[..|events| - 1], backoff);
      }
    }

    function SentIds(events: seq<Claimed>, fates: seq<SendFate>): seq<RowId>
      requires |fates| == |events|
    {
      if events == [] then []
      else
        var n := |events| - 1;
        SentIds(events[..n], fates[..n]) + if fates[n].Acknowledged? then [events[n].id] else []
    }

    function FailedIds(events: seq<Claimed>, fates: seq<SendFate>, backoff: int): seq<RowId>
      requires |fates| == |events|
    {
      if events == [] then []
      else
        var n := |events| - 1;
        FailedIds(events[..n], fates[..n], backoff)
        + if !fates[n].Acknowledged? && Backoff(events[n]) == backoff then [events[n].id] else []
    }
  }

  // Where the event of a row id is in the batch.
  function EventAt(events: seq<Claimed>, id: RowId): (r: Option<nat>)
    ensures r.Some? ==> r.value < |events| && events[r.value].id == id
    ensures r.None? ==> forall i | 0 <= i < |events| :: events[i].id != id
  {
    if events == [] then None
    else
      var n := |events| - 1;
      if events[n].id == id then Some(n) else EventAt(events[..n], id)
  }

  function Taken(events: seq<Claimed>, fates: seq<SendFate>): seq<Message>
    requires |fates| == |events|
  {
    if events == [] then []
    else
      var n := |events| - 1;
      Taken(events[..n], fates[..n]) + if fates[n].Refused? then [] else [ToMessage(events[n])]
  }

  lemma {:induction false} OthersKeepIdentities(t: Table, others: seq<Action>, o: OrderId)
    requires Valid(t) && o in t.rows
    ensures o in Elapsed(t, others).rows && IdentityOf(Elapsed(t, others).rows[o]) == IdentityOf(t.rows[o])
    decreases |others|
  {
    if others != [] {
      match others[0] {
        case Inserts(events) =>
          InsertAllRight(t, events);
          InsertRowsExtends(t.rows, events);
          OthersKeepIdentities(InsertAll(t, events), others[1..], o);
        case Updates(orders, st, now) =>
          OthersKeepIdentities(t.(rows := UpdateRows(t.rows, orders, st, now)), others[1..], o);
      }
    }
  }

  /** What the relay sends for a row it has read is a message of that row, and stays one whatever others do
      to the table before it is received. */
  lemma MessagesAreFromOutbox(t: Table, orders: seq<OrderId>, i: nat, others: seq<Action>)
    requires Valid(t) && AllInTable(t, orders) && i < |orders|
    ensures EffectivelyOnce.FromOutbox(Elapsed(t, others), ToMessage(EventsOf(t, orders)[i]))
  {
    OthersKeep(t, others);
    OthersKeepIdentities(t, others, orders[i]);
    assert orders[i] in t.ids && orders[i] in t.rows;
  }
}
