/** One row of the order outbox table as an automaton over the statements that update it. */
module OutboxRows {
  import opened Wrappers
  import opened SeckillTypes

  datatype Status = Pending | Sent | Completed | ManualReview

  datatype Row = Row(
    eventId: string, voucherId: VoucherId, userId: UserId, autoIssued: bool,
    status: Status, retryCount: nat, nextRetryTime: Time, lastError: Option<string>,
    relayOwner: Option<string>, relayLeaseUntil: Option<Time>,
    createdTime: Time, sentTime: Option<Time>, completedTime: Option<Time>)

  datatype Identity = Identity(eventId: string, voucherId: VoucherId, userId: UserId, autoIssued: bool)

  function IdentityOf(r: Row): Identity {
    Identity(r.eventId, r.voucherId, r.userId, r.autoIssued)
  }

  function NewRow(e: Event): Row {
    Row(e.eventId, e.voucherId, e.userId, e.autoIssued, Pending, 0, e.at, None, None, None, e.at, None, None)
  }

  // The statements of the mapper that update a row, as seen by one row they select.
  datatype Statement =
    | Claim(owner: string, leaseUntil: Time)
    | MarkSent(owner: string, nextCheckTime: Time)
    | ScheduleRetry(owner: string, nextRetryTime: Time, error: string)
    | MarkCompleted
    | MarkManualReview(reason: string)
    | RequeueAccepted(nextRetryTime: Time, reason: string)

  predicate InFlight(r: Row) {
    r.status == Pending || r.status == Sent
  }

  predicate Dispatchable(r: Row, now: Time) {
    InFlight(r) && r.nextRetryTime <= now && (r.relayLeaseUntil.None? || r.relayLeaseUntil.value < now)
  }

  predicate Guard(st: Statement, r: Row, now: Time) {
    match st
    case Claim(_, _) => Dispatchable(r, now)
    case MarkSent(owner, _) => r.relayOwner == Some(owner) && InFlight(r)
    case ScheduleRetry(owner, _, _) => r.relayOwner == Some(owner) && InFlight(r)
    case MarkCompleted => InFlight(r)
    case MarkManualReview(_) => r.status != Completed
    case RequeueAccepted(_, _) => r.status != Completed
  }

  function Effect(st: Statement, r: Row, now: Time): Row {
    match st
    case Claim(owner, leaseUntil) =>
      r.(relayOwner := Some(owner), relayLeaseUntil := Some(leaseUntil))
    case MarkSent(_, next) =>
      r.(status := Sent, sentTime := Some(now), nextRetryTime := next, lastError := None,
         relayOwner := None, relayLeaseUntil := None)
    case ScheduleRetry(_, next, error) =>
      r.(retryCount := r.retryCount + 1, nextRetryTime := next, lastError := Some(error),
         relayOwner := None, relayLeaseUntil := None)
    case MarkCompleted =>
      r.(status := Completed, completedTime := if r.completedTime.Some? then r.completedTime else Some(now),
         lastError := None, relayOwner := None, relayLeaseUntil := None)
    case MarkManualReview(reason) =>
      r.(status := ManualReview, lastError := Some(reason), relayOwner := None, relayLeaseUntil := None)
    case RequeueAccepted(next, reason) =>
      r.(status := Pending, retryCount := r.retryCount + 1, nextRetryTime := next, lastError := Some(reason),
         relayOwner := None, relayLeaseUntil := None)
  }

  function Update(st: Statement, r: Row, now: Time): Row {
    if Guard(st, r, now) then Effect(st, r, now) else r
  }

  /** What a run of statements, each at its time, makes of a row. */
  function Run(r: Row, steps: seq<(Statement, Time)>): Row
    decreases steps
  {
    if steps == [] then r else Run(Update(steps[0].0, r, steps[0].1), steps[1..])
  }

  /** A claim is held by an owner with a lease, on a row still to be delivered; a row has its
      completion time exactly when it is completed. */
  predicate Consistent(r: Row) {
    && (r.relayOwner.Some? <==> r.relayLeaseUntil.Some?)
    && (r.relayOwner.Some? ==> InFlight(r))
    && (r.completedTime.Some? <==> r.status == Completed)
  }

  /** Whatever happens to a row after it was inserted: it keeps its identity, stays consistent and
      never loses a retry. Selecting claimed rows by owner alone is therefore enough. */
  lemma {:induction false} RunKeepsRow(r: Row, steps: seq<(Statement, Time)>)
    requires Consistent(r)
    ensures Consistent(Run(r, steps))
    ensures IdentityOf(Run(r, steps)) == IdentityOf(r) && Run(r, steps).createdTime == r.createdTime
    ensures Run(r, steps).retryCount >= r.retryCount
    decreases steps
  {
    if steps != [] {
      RunKeepsRow(Update(steps[0].0, r, steps[0].1), steps[1..]);
    }
  }

  /** A completed row is never touched again. */
  lemma {:induction false} CompletedIsFinal(r: Row, steps: seq<(Statement, Time)>)
    requires r.status == Completed
    ensures Run(r, steps) == r
    decreases steps
  {
    if steps != [] {
      CompletedIsFinal(r, steps[1..]);
    }
  }

  /** A row is completed once: it has the time of its first completion, whatever happens afterwards. */
  lemma CompletesOnce(r: Row, now: Time, steps: seq<(Statement, Time)>)
    requires Consistent(r) && (r.status == Pending || r.status == Sent)
    ensures var r' := Run(r, [(MarkCompleted, now)] + steps);
            && r'.status == Completed && r'.completedTime == Some(now) && r'.lastError.None? && r'.relayOwner.None?
            && IdentityOf(r') == IdentityOf(r)
  {
    assert ([(MarkCompleted, now)] + steps)[1..] == steps;
    CompletedIsFinal(Update(MarkCompleted, r, now), steps);
  }

  predicate ClaimBy(owner: string, st: Statement) {
    st.Claim? && st.owner == owner
  }

  /** A relay that no longer owns a row does not get it back without claiming it again, so the
      results it still reports for the row are ignored. */
  lemma {:induction false} StaleRelayIsFenced(r: Row, steps: seq<(Statement, Time)>, owner: string, late: Statement,
      now: Time)
    requires r.relayOwner != Some(owner)
    requires forall i | 0 <= i < |steps| :: !ClaimBy(owner, steps[i].0)
    requires (late.MarkSent? || late.ScheduleRetry?) && late.owner == owner
    ensures Run(r, steps).relayOwner != Some(owner)
    ensures Update(late, Run(r, steps), now) == Run(r, steps)
    decreases steps
  {
    if steps != [] {
      StaleRelayIsFenced(Update(steps[0].0, r, steps[0].1), steps[1..], owner, late, now);
    }
  }

  /** The three ways to lose a claim: another relay claims the expired row, the row is put back in
      the queue or under review, or its order is completed. */
  lemma ClaimIsLost(r: Row, st: Statement, now: Time, owner: string)
    requires Consistent(r) && r.relayOwner == Some(owner) && Guard(st, r, now)
    requires !ClaimBy(owner, st)
    ensures Update(st, r, now).relayOwner != Some(owner)
  {
  }

  /** While a lease runs no other relay can take the row: during any run within the lease that
      consists of claims of other relays, the row does not change at all. */
  lemma {:induction false} LeaseExcludesOthers(r: Row, steps: seq<(Statement, Time)>, owner: string)
    requires r.relayOwner == Some(owner) && r.relayLeaseUntil.Some?
    requires forall i | 0 <= i < |steps| ::
               steps[i].1 <= r.relayLeaseUntil.value
               && (steps[i].0.Claim?
                   || ((steps[i].0.MarkSent? || steps[i].0.ScheduleRetry?) && steps[i].0.owner != owner))
    ensures Run(r, steps) == r
    decreases steps
  {
    if steps != [] {
      LeaseExcludesOthers(r, steps[1..], owner);
    }
  }

  /** Why a row can stay under review for ever although its order exists: completing it is refused,
      and only putting it back in the queue helps, which recovery does for orders it read as missing. */
  lemma {:induction false} ReviewEndsOnlyByRequeue(r: Row, steps: seq<(Statement, Time)>)
    requires r.status == ManualReview && Consistent(r)
    requires forall i | 0 <= i < |steps| :: !steps[i].0.RequeueAccepted?
    ensures Run(r, steps).status == ManualReview
    decreases steps
  {
    if steps != [] {
      ReviewEndsOnlyByRequeue(Update(steps[0].0, r, steps[0].1), steps[1..]);
    }
  }

  /** Whatever is not completed can be put under review, by which it is taken from its relay and out of
      the queue, and can be queued again from there as one retry more, as nobody's row. */
  lemma ReviewAndRequeue(r: Row, reason: string, at: Time, next: Time, reason': string, at': Time)
    requires r.status != Completed
    ensures var r1 := Run(r, [(MarkManualReview(reason), at)]);
            && r1.status == ManualReview && r1.lastError == Some(reason) && r1.relayOwner.None?
            && forall now :: !Dispatchable(r1, now)
    ensures var r2 := Run(r, [(MarkManualReview(reason), at)] + [(RequeueAccepted(next, reason'), at')]);
            && r2.status == Pending && r2.retryCount == r.retryCount + 1 && r2.lastError == Some(reason')
            && r2.relayOwner.None? && r2.nextRetryTime == next && IdentityOf(r2) == IdentityOf(r)
            && forall now | now >= next :: Dispatchable(r2, now)
  {
    var review: (Statement, Time) := (MarkManualReview(reason), at);
    var requeue: (Statement, Time) := (RequeueAccepted(next, reason'), at');
    assert [review][1..] == [] && [requeue][1..] == [];
    assert ([review] + [requeue])[0] == review && ([review] + [requeue])[1..] == [requeue];
    var r1 := Update(review.0, r, at);
    assert Run(r, [review]) == Run(r1, []) && Run(r, [review] + [requeue]) == Run(r1, [requeue]);
    assert Run(r1, [requeue]) == Run(Update(requeue.0, r1, at'), []);
  }
}
