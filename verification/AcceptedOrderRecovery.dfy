/** What becomes of accepted orders that could not be consumed: dead letters and rows under review. */
module AcceptedOrderRecovery {
  import opened Wrappers
  import opened SeckillTypes
  import opened OutboxRows
  import opened OutboxTable
  import OrderPersistence
  import OutboxRelay

  const REVIEWED := "manual review queued again"
  const EXHAUSTED := "consumption retries exhausted"
  const NOT_REQUEUED := "failed to requeue accepted order"

  datatype Recovery = Recovered | Rejected | NoRow | BadMessage

  /** A retry of one row: its order is written and the row is completed, or its order is missing and the
      row goes back into the queue. Nothing, if the update finds no row to change. */
  function Retried(r: Row, written: bool, backoff: int, reason: string, now: Time): Option<Row> {
    var st := if written then MarkCompleted else RequeueAccepted(now + backoff, reason);
    if Guard(st, r, now) then Some(Effect(st, r, now)) else None
  }

  /** A dead letter: a retry, and a review if the retry has nothing to change. */
  function DeadLettered(r: Row, written: bool, backoff: int, now: Time): Row {
    match Retried(r, written, backoff, EXHAUSTED, now)
    case Some(r') => r'
    case None => Update(MarkManualReview(NOT_REQUEUED), r, now)
  }

  class SeckillAcceptedOrderRecoveryService {
    const database: OrderPersistence.Database
    const outboxMapper: OutboxMapper
    const initialBackoffSeconds: int
    const maxBackoffSeconds: int

    constructor (
      database: OrderPersistence.Database, outboxMapper: OutboxMapper, initialBackoffSeconds: int, maxBackoffSeconds: int)
      ensures this.database == database && this.outboxMapper == outboxMapper
      ensures this.initialBackoffSeconds == initialBackoffSeconds && this.maxBackoffSeconds == maxBackoffSeconds
    {
      this.database, this.outboxMapper := database, outboxMapper;
      this.initialBackoffSeconds, this.maxBackoffSeconds := initialBackoffSeconds, maxBackoffSeconds;
    }

    function Backoff(r: Row): int {
      OutboxRelay.BackoffSeconds(r.retryCount, initialBackoffSeconds, maxBackoffSeconds)
    }

    function Written(o: OrderId): bool
      reads database
    {
      o in database.db.book.orders
    }

    // `event` is the row as it was read. Here nothing happens between the read of the order and the update
    // of the row; `Case` below is about what may.
    method Retry(o: OrderId, event: Row, reason: string, now: Time) returns (ok: bool)
      requires Valid(outboxMapper.table) && o in outboxMapper.table.rows
      modifies outboxMapper
      ensures Valid(outboxMapper.table) && outboxMapper.table.ids == old(outboxMapper.table.ids)
      ensures var r := Retried(old(outboxMapper.table.rows)[o], Written(o), Backoff(event), reason, now);
              && (ok <==> r.Some?)
              && outboxMapper.table.rows == if ok then old(outboxMapper.table.rows)[o := r.value]
                  else old(outboxMapper.table.rows)
    {
      ghost var rows := outboxMapper.table.rows;
      if Written(o) {
        var completed := outboxMapper.UpdateByOrderIds({o}, MarkCompleted, now);
        OneRow(rows, o, MarkCompleted, now);
        return completed != 0;
      }
      var st := RequeueAccepted(now + Backoff(event), reason);
      var requeued := outboxMapper.UpdateByOrderIds({o}, st, now);
      OneRow(rows, o, st, now);
      return requeued != 0;
    }

    method RecoverDeadLetter(orderId: Option<OrderId>, now: Time) returns (r: Recovery)
      requires Valid(outboxMapper.table)
      modifies outboxMapper
      ensures Valid(outboxMapper.table) && outboxMapper.table.ids == old(outboxMapper.table.ids)
      ensures r.BadMessage? <==> orderId.None?
      ensures r.NoRow? <==> orderId.Some? && orderId.value !in old(outboxMapper.table.rows)
      ensures if orderId.Some? && orderId.value in old(outboxMapper.table.rows)
              then
                var o, row := orderId.value, old(outboxMapper.table.rows)[orderId.value];
                && outboxMapper.table.rows
                    == old(outboxMapper.table.rows)[o := DeadLettered(row, Written(o), Backoff(row), now)]
                && (r.Recovered? <==> Retried(row, Written(o), Backoff(row), EXHAUSTED, now).Some?)
              else outboxMapper.table.rows == old(outboxMapper.table.rows)
    {
      if orderId.None? {
        return BadMessage;
      }
      var o := orderId.value;
      if o !in outboxMapper.table.rows {
        return NoRow;
      }
      ghost var rows := outboxMapper.table.rows;
      var ok := Retry(o, outboxMapper.table.rows[o], EXHAUSTED, now);
      if ok {
        return Recovered;
      }
      var _ := outboxMapper.UpdateByOrderIds({o}, MarkManualReview(NOT_REQUEUED), now);
      OneRow(rows, o, MarkManualReview(NOT_REQUEUED), now);
      return Rejected;
    }

    /** The rows under review whose orders are missing go back into the queue; those whose orders are
        written are passed over. */
    method RetryManualReviews(found: seq<OrderId>, now: Time)
      requires Valid(outboxMapper.table)
      requires forall i | 0 <= i < |found| ::
          found[i] in outboxMapper.table.rows && outboxMapper.table.rows[found[i]].status == ManualReview
      requires forall i, j | 0 <= i < j < |found| :: found[i] != found[j]
      modifies outboxMapper
      ensures Valid(outboxMapper.table) && outboxMapper.table.rows.Keys == old(outboxMapper.table.rows).Keys
      ensures forall o | o in old(outboxMapper.table.rows) ::
                outboxMapper.table.rows[o]
                == var r := old(outboxMapper.table.rows)[o];
                   if o in found && !Written(o) then Effect(RequeueAccepted(now + Backoff(r), REVIEWED), r, now) else r
    {
      ghost var rows := outboxMapper.table.rows;
      for i := 0 to |found|
        invariant Valid(outboxMapper.table) && outboxMapper.table.rows.Keys == rows.Keys
        invariant forall o | o in rows ::
                    outboxMapper.table.rows[o]
                    == if o in found[..i] && !Written(o)
                        then Effect(RequeueAccepted(now + Backoff(rows[o]), REVIEWED), rows[o], now)
                       else rows[o]
      {
        assert found[i] !in found[..i] && found[..i + 1] == found[..i] + [found[i]];
        var _ := Retry(found[i], outboxMapper.table.rows[found[i]], REVIEWED, now);
      }
      assert found[..|found|] == found;
    }
  }

  lemma OneRow(rows: Rows, o: OrderId, st: Statement, now: Time)
    requires o in rows
    ensures UpdateRows(rows, {o}, st, now) == rows[o := Update(st, rows[o], now)]
    ensures Matched(rows, {o}, st, now) == if Guard(st, rows[o], now) then 1 else 0
  {
    assert Matching(rows, {o}, st, now) == if Guard(st, rows[o], now) then {o} else {};
  }

  // ---- The undisturbed retry ----

  /** A retry completes the row of a written order if and only if the row is not under review and was
      not completed before; it requeues the row of a missing order unless the row is completed. */
  lemma RetryExactly(r: Row, written: bool, backoff: int, reason: string, now: Time)
    ensures written
        ==> (Retried(r, written, backoff, reason, now).Some? <==> r.status != ManualReview && r.status != Completed)
    ensures !written ==> (Retried(r, written, backoff, reason, now).Some? <==> r.status != Completed)
    ensures Consistent(r) && Retried(r, written, backoff, reason, now).Some? ==>
              var r' := Retried(r, written, backoff, reason, now).value;
              && r'.status == (if written then Completed else Pending) && Consistent(r')
                  && IdentityOf(r') == IdentityOf(r)
              && r'.relayOwner.None?
              && (!written ==> r'.nextRetryTime == now + backoff && r'.lastError == Some(reason)
                               && r'.retryCount == r.retryCount + 1)
  {
    if Consistent(r) {
      RunKeepsRow(r, [(if written then MarkCompleted else RequeueAccepted(now + backoff, reason), now)]);
    }
  }

  // ---- Retries that others interrupt ----

  // A retry that has read whether the order is written, and not yet updated the row.
  datatype Reading = Reading(written: bool, backoff: int, reason: string)

  /** The row of one accepted order, whether its order is written, and the retries under way. Between the
      read of a retry and its update anything may happen, for the two are not in one transaction. */
  datatype Case = Case(row: Row, written: bool, readings: map<nat, Reading>)

  datatype Step =
    | Stated(statement: Statement, now: Time)
    | Write(now: Time)
    | BeginRetry(id: nat, backoff: int, reason: string)
    | EndRetry(id: nat, now: Time)
    | Crash(id: nat)

  // Only a retry puts an accepted order back into the queue, and a retry has its own number.
  predicate Possible(c: Case, step: Step) {
    match step
    case Stated(st, _) => !st.RequeueAccepted?
    case Write(_) => true
    case BeginRetry(id, _, _) => id !in c.readings
    case EndRetry(id, _) => id in c.readings
    case Crash(_) => true
  }

  // The consumer writes the order and completes the row in one transaction.
  function After(c: Case, step: Step): Case {
    match step
    case Stated(st, now) => c.(row := Update(st, c.row, now))
    case Write(now) => c.(row := Update(MarkCompleted, c.row, now), written := true)
    case BeginRetry(id, backoff, reason) => c.(readings := c.readings[id := Reading(c.written, backoff, reason)])
    case EndRetry(id, now) =>
      if id in c.readings
      then Case(Tried(c.row, c.readings[id], now), c.written, c.readings - {id})
      else c
    case Crash(id) => c.(readings := c.readings - {id})
  }

  function Tried(r: Row, seen: Reading, now: Time): Row {
    match Retried(r, seen.written, seen.backoff, seen.reason, now)
    case Some(r') => r'
    case None => r
  }

  predicate IsRun(c: Case, steps: seq<Step>)
    decreases |steps|
  {
    steps == [] || (Possible(c, steps[0]) && IsRun(After(c, steps[0]), steps[1..]))
  }

  function Final(c: Case, steps: seq<Step>): Case
    decreases |steps|
  {
    if steps == [] then c else Final(After(c, steps[0]), steps[1..])
  }

  /** A retry that nobody interrupts changes the row as the service's method does. */
  lemma UndisturbedRetry(c: Case, id: nat, backoff: int, reason: string, now: Time)
    requires id !in c.readings
    ensures var steps := [BeginRetry(id, backoff, reason), EndRetry(id, now)];
            var r := Retried(c.row, c.written, backoff, reason, now);
            && IsRun(c, steps)
            && Final(c, steps) == c.(row := if r.Some? then r.value else c.row)
  {
    var steps := [BeginRetry(id, backoff, reason), EndRetry(id, now)];
    var c1 := After(c, steps[0]);
    assert c1.readings - {id} == c.readings;
    var c2 := After(c1, steps[1]);
    assert steps[1..][1..] == [];
    assert Final(c1, steps[1..]) == Final(c2, []) && IsRun(c1, steps[1..]);
  }

  /** The one step that takes a row out of review is the update of a retry that read its order as missing. */
  lemma ReviewIsLeftByRequeue(c: Case, step: Step)
    requires Possible(c, step) && c.row.status == ManualReview
    ensures After(c, step).row.status != ManualReview <==> step.EndRetry? && !c.readings[step.id].written
  {
  }

  predicate Missing(c: Case, id: nat) {
    id in c.readings && !c.readings[id].written
  }

  lemma {:induction false} ReviewStays(c: Case, steps: seq<Step>)
    requires c.written && c.row.status == ManualReview && IsRun(c, steps)
    requires forall id :: !Missing(c, id)
    ensures Final(c, steps).row.status == ManualReview
    decreases |steps|
  {
    if steps != [] {
      ReviewIsLeftByRequeue(c, steps[0]);
      assert steps[0].EndRetry? ==> !Missing(c, steps[0].id);
      var c1 := After(c, steps[0]);
      forall id ensures !Missing(c1, id) {
        assert !Missing(c, id);
      }
      ReviewStays(c1, steps[1..]);
    }
  }

  /** Once its order is written, a row under review stays under review whatever happens, if and only if no
      retry is under way that read the order as missing. */
  lemma ReviewOfWrittenOrderStays(c: Case)
    requires c.written && c.row.status == ManualReview
    ensures (forall steps | IsRun(c, steps) :: Final(c, steps).row.status == ManualReview)
       <==> (forall id :: !Missing(c, id))
  {
    if forall id :: !Missing(c, id) {
      forall steps | IsRun(c, steps) ensures Final(c, steps).row.status == ManualReview {
        ReviewStays(c, steps);
      }
    } else {
      var id :| Missing(c, id);
      var steps := [EndRetry(id, 0)];
      var c1 := After(c, steps[0]);
      FinalStep(c, steps);
      assert steps[1..] == [] && Final(c1, []) == c1;
      ReviewIsLeftByRequeue(c, steps[0]);
    }
  }

  /** The retry of the review reads the order as missing, the consumer writes the order and cannot complete
      the row, the retry queues the row again, and the message sent again completes it. */
  lemma ReviewedRowIsCompletedAfterAll(r: Row, backoff: int, now: Time)
    requires r.status == ManualReview
    ensures var c := Case(r, false, map[]);
            var steps := [BeginRetry(0, backoff, REVIEWED), Write(now), EndRetry(0, now), Write(now)];
            && IsRun(c, steps)
            && Final(c, steps[..2]).written && Final(c, steps[..2]).row == r
            && Final(c, steps).written && Final(c, steps).row.status == Completed
  {
    var c := Case(r, false, map[]);
    var steps := [BeginRetry(0, backoff, REVIEWED), Write(now), EndRetry(0, now), Write(now)];
    var c1 := After(c, steps[0]);
    var c2 := After(c1, steps[1]);
    var c3 := After(c2, steps[2]);
    var c4 := After(c3, steps[3]);
    FinalStep(c, steps);
    FinalStep(c1, steps[1..]);
    FinalStep(c2, steps[2..]);
    FinalStep(c3, steps[3..]);
    assert IsRun(c4, steps[4..]) && Final(c4, steps[4..]) == c4;
    FinalStep(c, steps[..2]);
    FinalStep(c1, steps[..2][1..]);
    assert Final(c2, steps[..2][1..][1..]) == c2;
  }

  lemma FinalStep(c: Case, steps: seq<Step>)
    requires steps != []
    ensures Final(c, steps) == Final(After(c, steps[0]), steps[1..])
    ensures IsRun(c, steps) <==> Possible(c, steps[0]) && IsRun(After(c, steps[0]), steps[1..])
    ensures forall i | 0 <= i <= |steps[1..]| :: steps[1..][i..] == steps[i + 1..]
  {
  }
}
