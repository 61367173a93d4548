/** Moves accepted purchases from the Redis handoff set into the outbox. A batch that conflicts is
    halved until the members that cannot be stored stand alone and go to quarantine. */
module HandoffRelay {
  import opened Wrappers
  import opened SeckillTypes
  import OutboxRows
  import opened OutboxTable
  import opened OutboxBatchWriter
  import MemberCodec

  datatype Entry = Entry(voucherId: VoucherId, member: string, reason: string)

  // What a relay can see and change for one voucher.
  datatype Store = Store(rows: Rows, queue: seq<string>, receipts: map<OrderId, string>, quarantine: set<Entry>)

  function Remove(queue: seq<string>, gone: set<string>): (rest: seq<string>)
    ensures forall m :: m in rest <==> m in queue && m !in gone
  {
    if queue == [] then []
    else (if queue[0] in gone then [] else [queue[0]]) + Remove(queue[1..], gone)
  }

  function OrderIds(events: seq<Event>): set<OrderId> {
    set i | 0 <= i < |events| :: events[i].orderId
  }

  function Completed(s: Store, events: seq<Event>, members: seq<string>): Store {
    s.(queue := Remove(s.queue, Set(members)), receipts := s.receipts - OrderIds(events))
  }

  function Quarantined(v: VoucherId, s: Store, member: string, reason: string): Store {
    if member in s.queue
    then s.(queue := Remove(s.queue, {member}), quarantine := s.quarantine + {Entry(v, member, reason)})
    else s
  }

  // ---- Processing one purchase after the other ----

  function One(v: VoucherId, s: Store, e: Event, member: string): Store {
    match Commit(s.rows, [e])
    case Ok(rows) => Completed(s.(rows := rows), [e], [member])
    case Err(_) => Quarantined(v, s, member, "data-integrity")
  }

  function OneByOne(v: VoucherId, s: Store, events: seq<Event>, members: seq<string>): Store
    requires |events| == |members|
    decreases |events|
  {
    if events == [] then s else OneByOne(v, One(v, s, events[0], members[0]), events[1..], members[1..])
  }

  lemma {:induction false} RemoveTwice(queue: seq<string>, a: set<string>, b: set<string>)
    ensures Remove(Remove(queue, a), b) == Remove(queue, a + b)
  {
    if queue != [] {
      RemoveTwice(queue[1..], a, b);
      var rest := Remove(queue[1..], a);
      assert ([queue[0]] + rest)[1..] == rest;
      assert [] + rest == rest;
    }
  }

  lemma {:induction false} RemoveNothing(queue: seq<string>, gone: set<string>)
    requires forall m | m in queue :: m !in gone
    ensures Remove(queue, gone) == queue
  {
    if queue != [] {
      RemoveNothing(queue[1..], gone);
    }
  }

  lemma CompletedTwice(s: Store, e: Event, m: string, events: seq<Event>, members: seq<string>)
    ensures Completed(Completed(s, [e], [m]), events, members) == Completed(s, [e] + events, [m] + members)
  {
    RemoveTwice(s.queue, Set([m]), Set(members));
    assert Set([m] + members) == Set([m]) + Set(members);
    var all := [e] + events;
    forall o ensures o in OrderIds(all) <==> o in OrderIds([e]) + OrderIds(events) {
      if o in OrderIds(events) {
        var i :| 0 <= i < |events| && events[i].orderId == o;
        assert all[i + 1].orderId == o;
      }
      if o in OrderIds([e]) {
        assert all[0].orderId == o;
      }
      if o in OrderIds(all) {
        var i :| 0 <= i < |all| && all[i].orderId == o;
        assert if i == 0 then [e][0].orderId == o else events[i - 1].orderId == o;
      }
    }
    assert OrderIds(all) == OrderIds([e]) + OrderIds(events);
    assert s.receipts - OrderIds([e]) - OrderIds(events) == s.receipts - OrderIds(all);
  }

  lemma InsertOne(rows: Rows, e: Event)
    ensures InsertRows(rows, [e]) == InsertRow(rows, e)
  {
    assert [e][1..] == [];
  }

  /** A batch that commits does what its purchases would have done one after the other. */
  lemma {:induction false} BatchIsOneByOne(v: VoucherId, s: Store, events: seq<Event>, members: seq<string>)
    requires |events| == |members|
    requires Commit(s.rows, events).Ok?
    ensures OneByOne(v, s, events, members) == Completed(s.(rows := Commit(s.rows, events).value), events, members)
    decreases |events|
  {
    var e, m, rest, restMembers := events[0], members[0], events[1..], members[1..];
    FirstStoredAlone(s.rows, events);
    InsertOne(s.rows, e);
    var rows1 := InsertRow(s.rows, e);
    assert Commit(s.rows, [e]) == Ok(rows1);
    var s1 := Completed(s.(rows := rows1), [e], [m]);
    assert events == [e] + rest && members == [m] + restMembers;
    var end := s.(rows := InsertRows(s.rows, events));
    CompletedTwice(end, e, m, rest, restMembers);
    if rest == [] {
      assert events == [e] && members == [m];
    } else {
      assert AllStored(InsertRows(rows1, rest), rest) by {
        forall i | 0 <= i < |rest| ensures Stored(InsertRows(rows1, rest), rest[i]) {
          assert rest[i] == events[i + 1];
        }
      }
      BatchIsOneByOne(v, s1, rest, restMembers);
    }
  }

  lemma {:induction false} OneByOneConcat(
    v: VoucherId, s: Store, a: seq<Event>, ma: seq<string>, b: seq<Event>, mb: seq<string>)
    requires |a| == |ma| && |b| == |mb|
    ensures OneByOne(v, s, a + b, ma + mb) == OneByOne(v, OneByOne(v, s, a, ma), b, mb)
    decreases |a|
  {
    if a == [] {
      assert a + b == b && ma + mb == mb;
    } else {
      assert (a + b)[0] == a[0] && (a + b)[1..] == a[1..] + b;
      assert (ma + mb)[0] == ma[0] && (ma + mb)[1..] == ma[1..] + mb;
      OneByOneConcat(v, One(v, s, a[0], ma[0]), a[1..], ma[1..], b, mb);
    }
  }

  // ---- What one-after-the-other processing achieves ----

  /** What becomes of one purchase: it is stored and cleared away if it fits what is stored; otherwise the
      member is quarantined, if it is still queued, and its receipt stays. */
  lemma OneExactly(v: VoucherId, s: Store, e: Event, member: string)
    ensures var s' := One(v, s, e, member);
            && s'.queue == Remove(s.queue, {member})
            && (Stored(s'.rows, e) <==> Fits(s.rows, e))
            && if Fits(s.rows, e)
               then s'.receipts == s.receipts - {e.orderId} && s'.quarantine == s.quarantine
               else s'.rows == s.rows && s'.receipts == s.receipts
                    && s'.quarantine
                       == s.quarantine + if member in s.queue then {Entry(v, member, "data-integrity")} else {}
  {
    CommitsExactly(s.rows, [e]);
    assert [e][0] == e && Set([member]) == {member} && OrderIds([e]) == {e.orderId} by {
      assert forall o :: o in OrderIds([e]) <==> o == e.orderId;
    }
    if member !in s.queue {
      RemoveNothing(s.queue, {member});
    }
    RefusedStays(s.rows, e);
  }

  lemma RefusedStays(rows: Rows, e: Event)
    ensures Commit(rows, [e]).Err? ==> !Stored(rows, e)
    ensures Commit(rows, [e]).Ok? ==> Stored(Commit(rows, [e]).value, e)
  {
    InsertRowsExtends(rows, [e]);
    assert [e][0] == e;
    assert forall i | 0 <= i < |[e]| :: [e][i] == e;
  }

  predicate Handled(v: VoucherId, s: Store, e: Event, member: string) {
    Stored(s.rows, e) || Entry(v, member, "data-integrity") in s.quarantine
  }

  ghost predicate Grows(s: Store, s': Store) {
    Extends(s.rows, s'.rows) && s.quarantine <= s'.quarantine
  }

  lemma OneRight(v: VoucherId, s: Store, e: Event, member: string)
    ensures var s' := One(v, s, e, member);
            Grows(s, s') && s'.queue == Remove(s.queue, {member}) && (member in s.queue ==> Handled(v, s', e, member))
  {
    InsertRowsExtends(s.rows, [e]);
    assert Set([member]) == {member};
    assert [e][0] == e;
    if member !in s.queue {
      RemoveNothing(s.queue, {member});
    }
  }

  /** Exactly the members of the batch leave the queue, and each that was in it is stored with its own
      identity or quarantined; nothing stored or quarantined before is lost. */
  lemma {:induction false} OneByOneRight(v: VoucherId, s: Store, events: seq<Event>, members: seq<string>)
    requires |events| == |members| && NoRepeats(members)
    ensures Grows(s, OneByOne(v, s, events, members))
    ensures OneByOne(v, s, events, members).queue == Remove(s.queue, Set(members))
    ensures forall i | 0 <= i < |events| && members[i] in s.queue ::
              Handled(v, OneByOne(v, s, events, members), events[i], members[i])
    decreases |events|
  {
    if events == [] {
      RemoveNothing(s.queue, Set(members));
    } else {
      var s1, end := One(v, s, events[0], members[0]), OneByOne(v, s, events, members);
      OneRight(v, s, events[0], members[0]);
      OneByOneRight(v, s1, events[1..], members[1..]);
      RemoveTwice(s.queue, {members[0]}, Set(members[1..]));
      assert members == [members[0]] + members[1..];
      assert {members[0]} + Set(members[1..]) == Set(members);
      forall i | 0 <= i < |events| && members[i] in s.queue ensures Handled(v, end, events[i], members[i]) {
        if i > 0 {
          assert members[i] != members[0];
          assert events[1..][i - 1] == events[i] && members[1..][i - 1] == members[i];
        }
      }
    }
  }

  // ---- A later attempt reads the members at another time ----

  ghost predicate Alike(rows: Rows, rows': Rows) {
    rows.Keys == rows'.Keys && forall o | o in rows :: OutboxRows.IdentityOf(rows'[o]) == OutboxRows.IdentityOf(rows[o])
  }

  predicate SameEvent(e: Event, e': Event) {
    e'.orderId == e.orderId && EventIdentity(e') == EventIdentity(e)
  }

  lemma InsertRowAlike(rows: Rows, rows': Rows, e: Event, e': Event)
    requires Alike(rows, rows') && SameEvent(e, e')
    ensures Alike(InsertRow(rows, e), InsertRow(rows', e'))
  {
    assert forall o | o in rows :: rows'[o].eventId == rows[o].eventId;
  }

  lemma OneAlike(v: VoucherId, s: Store, s': Store, e: Event, e': Event, member: string)
    requires Alike(s.rows, s'.rows) && s' == s.(rows := s'.rows) && SameEvent(e, e')
    ensures Alike(One(v, s, e, member).rows, One(v, s', e', member).rows)
    ensures One(v, s', e', member) == One(v, s, e, member).(rows := One(v, s', e', member).rows)
  {
    InsertOne(s.rows, e);
    InsertOne(s'.rows, e');
    InsertRowAlike(s.rows, s'.rows, e, e');
    assert [e][0] == e && [e'][0] == e';
    assert Stored(InsertRow(s.rows, e), e) <==> Stored(InsertRow(s'.rows, e'), e');
    CompletedAlike(s, s', e, e', member);
  }

  lemma CompletedAlike(s: Store, s': Store, e: Event, e': Event, member: string)
    requires s' == s.(rows := s'.rows) && SameEvent(e, e')
    ensures Completed(s', [e'], [member]) == Completed(s, [e], [member]).(rows := s'.rows)
  {
    assert OrderIds([e]) == {e.orderId} by {
      assert [e][0] == e;
    }
    assert OrderIds([e']) == {e.orderId} by {
      assert [e'][0] == e';
    }
  }

  /** When a relay starts over it stamps the same purchases with a later time; the identities stored,
      the queue, the receipts and the quarantine come out the same. */
  lemma {:induction false} TimesDoNotMatter(
    v: VoucherId, s: Store, s': Store, events: seq<Event>, events': seq<Event>, members: seq<string>)
    requires |events| == |events'| == |members|
    requires Alike(s.rows, s'.rows) && s' == s.(rows := s'.rows)
    requires forall i | 0 <= i < |events| :: SameEvent(events[i], events'[i])
    ensures Alike(OneByOne(v, s, events, members).rows, OneByOne(v, s', events', members).rows)
    ensures OneByOne(v, s', events', members)
         == OneByOne(v, s, events, members).(rows := OneByOne(v, s', events', members).rows)
    decreases |events|
  {
    hide One, Alike;
    if events != [] {
      OneAlike(v, s, s', events[0], events'[0], members[0]);
      TimesDoNotMatter(v, One(v, s, events[0], members[0]), One(v, s', events'[0], members[0]),
                       events[1..], events'[1..], members[1..]);
    }
  }

  // ---- The relay ----

  // Of a call to Redis or MySQL: it is answered, it fails before it takes effect, or its effect is
  // there but the answer is lost.
  datatype Fate = Answered | Lost | Unanswered

  // Everything the relay can see and change.
  datatype World = World(
    rows: Rows, handoff: map<VoucherId, seq<string>>, receipts: map<OrderId, string>, quarantine: set<Entry>)

  function QueueIn(w: World, v: VoucherId): seq<string> {
    if v in w.handoff then w.handoff[v] else []
  }

  function StoreIn(w: World, v: VoucherId): Store {
    Store(w.rows, QueueIn(w, v), w.receipts, w.quarantine)
  }

  function First(queue: seq<string>, limit: nat): (first: seq<string>)
    ensures first <= queue && |first| == if |queue| < limit then |queue| else limit
  {
    if |queue| <= limit then queue else queue[..limit]
  }

  class Redis {
    var handoff: map<VoucherId, seq<string>>
    var receipts: map<OrderId, string>
    var quarantine: set<Entry>

    // The first members of the voucher's ZSet in score order.
    function Queue(v: VoucherId): seq<string>
      reads this
    {
      if v in handoff then handoff[v] else []
    }

    function FindFirst(v: VoucherId, limit: int): (first: seq<string>)
      reads this
      ensures limit >= 0 ==> first == First(Queue(v), limit)
    {
      if limit <= 0 then [] else if |Queue(v)| < limit then Queue(v) else Queue(v)[..limit]
    }

    method CompleteBatch(v: VoucherId, events: seq<Event>, members: seq<string>) returns (r: Option<nat>)
      modifies this
      ensures r.None? <==> 0 < |members| < |events|
      ensures r.None? || events == [] || members == [] ==>
                handoff == old(handoff) && receipts == old(receipts)
      ensures r.Some? && events != [] && members != [] ==>
                && Queue(v) == Remove(old(Queue(v)), Set(members[..|events|]))
                && receipts == old(receipts) - OrderIds(events)
                && handoff == old(handoff)[v := Queue(v)]
      ensures quarantine == old(quarantine)
    {
      if events == [] || members == [] {
        return Some(0);
      }
      var removedMembers: seq<string>, orderIds: set<OrderId> := [], {};
      for i := 0 to |events|
        invariant i <= |members| && removedMembers == members[..i]
        invariant orderIds == OrderIds(events[..i])
        invariant handoff == old(handoff) && receipts == old(receipts) && quarantine == old(quarantine)
      {
        if i >= |members| {
          return None;
        }
        removedMembers := removedMembers + [members[i]];
        orderIds := orderIds + {events[i].orderId};
        NextOrderId(events, i);
      }
      assert events[..|events|] == events;
      var rest := Remove(Queue(v), Set(removedMembers));
      RemoveShrinks(Queue(v), Set(removedMembers));
      r := Some(|Queue(v)| - |rest|);
      handoff := handoff[v := rest];
      receipts := receipts - orderIds;
    }

    method Quarantine(v: VoucherId, member: string, reason: string)
      modifies this
      ensures receipts == old(receipts)
      ensures member in old(Queue(v)) ==>
                && handoff == old(handoff)[v := Remove(old(Queue(v)), {member})]
                && quarantine == old(quarantine) + {Entry(v, member, reason)}
      ensures member !in old(Queue(v)) ==> handoff == old(handoff) && quarantine == old(quarantine)
    {
      if member in Queue(v) {
        handoff := handoff[v := Remove(Queue(v), {member})];
        quarantine := quarantine + {Entry(v, member, reason)};
      }
    }
  }

  lemma NextOrderId(events: seq<Event>, i: nat)
    requires i < |events|
    ensures OrderIds(events[..i + 1]) == OrderIds(events[..i]) + {events[i].orderId}
  {
    forall o | o in OrderIds(events[..i + 1]) ensures o in OrderIds(events[..i]) + {events[i].orderId} {
      var k :| 0 <= k <= i && events[k].orderId == o;
      assert k < i ==> events[..i][k].orderId == o;
    }
    forall o | o in OrderIds(events[..i]) + {events[i].orderId} ensures o in OrderIds(events[..i + 1]) {
      if o == events[i].orderId {
        assert events[..i + 1][i].orderId == o;
      } else {
        var k :| 0 <= k < i && events[..i][k].orderId == o;
        assert events[..i + 1][k].orderId == o;
      }
    }
  }

  lemma {:induction false} RemoveShrinks(queue: seq<string>, gone: set<string>)
    ensures |Remove(queue, gone)| <= |queue|
  {
    if queue != [] {
      RemoveShrinks(queue[1..], gone);
    }
  }

  type Positive = n: nat | n > 0 witness 1

  class SeckillOrderHandoffRelay {
    const redis: Redis
    const batchWriter: SeckillOrderOutboxBatchWriter
    const batchSize: Positive
    const fate: nat -> Fate
    var calls: nat
    var attempts: nat

    constructor (redis: Redis, batchWriter: SeckillOrderOutboxBatchWriter, batchSize: int, fate: nat -> Fate)
      ensures this.redis == redis && this.batchWriter == batchWriter && this.fate == fate
      ensures this.batchSize == if batchSize < 1 then 1 else batchSize
      ensures calls == attempts == 0
    {
      this.redis, this.batchWriter, this.fate := redis, batchWriter, fate;
      this.batchSize := if batchSize < 1 then 1 else batchSize;
      calls, attempts := 0, 0;
    }

    ghost function StoreOf(v: VoucherId): Store
      reads redis, batchWriter.outboxMapper
    {
      Store(batchWriter.outboxMapper.table.rows, redis.Queue(v), redis.receipts, redis.quarantine)
    }

    ghost function Everything(): World
      reads redis, batchWriter.outboxMapper
    {
      World(batchWriter.outboxMapper.table.rows, redis.handoff, redis.receipts, redis.quarantine)
    }

    ghost predicate AnsweredSince(from: nat)
      reads this
    {
      forall i | from <= i < calls :: fate(i).Answered?
    }

    method InsertCommitted(events: seq<Event>) returns (answer: Option<bool>)
      requires Valid(batchWriter.outboxMapper.table)
      modifies this, batchWriter.outboxMapper
      ensures Valid(batchWriter.outboxMapper.table)
      ensures calls == old(calls) + 1 && attempts == old(attempts) + 1
      ensures answer.Some? <==> fate(old(calls)).Answered?
      ensures answer.Some? ==> (answer.value <==> Commit(old(batchWriter.outboxMapper.table.rows), events).Ok?)
      ensures batchWriter.outboxMapper.table.rows == match Commit(old(batchWriter.outboxMapper.table.rows), events)
                case Ok(rows) => if fate(old(calls)).Lost? then old(batchWriter.outboxMapper.table.rows) else rows
                case Err(_) => old(batchWriter.outboxMapper.table.rows)
    {
      var f := fate(calls);
      calls, attempts := calls + 1, attempts + 1;
      if f.Lost? {
        return None;
      }
      var r := batchWriter.InsertCommitted(events);
      answer := if f.Answered? then Some(r.Ok?) else None;
    }

    method CompleteBatch(v: VoucherId, events: seq<Event>, members: seq<string>) returns (answered: bool)
      requires |events| == |members| && events != []
      modifies this, redis
      ensures calls == old(calls) + 1 && attempts == old(attempts)
      ensures answered <==> fate(old(calls)).Answered?
      ensures StoreOf(v) == if fate(old(calls)).Lost? then old(StoreOf(v))
          else Completed(old(StoreOf(v)), events, members)
      ensures redis.handoff - {v} == old(redis.handoff) - {v}
    {
      var f := fate(calls);
      calls := calls + 1;
      if !f.Lost? {
        assert members[..|events|] == members;
        var _ := redis.CompleteBatch(v, events, members);
      }
      answered := f.Answered?;
    }

    method Quarantine(v: VoucherId, member: string, reason: string) returns (answered: bool)
      modifies this, redis
      ensures calls == old(calls) + 1 && attempts == old(attempts)
      ensures answered <==> fate(old(calls)).Answered?
      ensures StoreOf(v) == if fate(old(calls)).Lost? then old(StoreOf(v))
          else Quarantined(v, old(StoreOf(v)), member, reason)
      ensures redis.handoff - {v} == old(redis.handoff) - {v}
    {
      var f := fate(calls);
      calls := calls + 1;
      if !f.Lost? {
        redis.Quarantine(v, member, reason);
      }
      answered := f.Answered?;
    }

    // The malformed members go to quarantine; the others are parsed.
    method SortOut(v: VoucherId, ghost s: Store, members: seq<string>, now: Time)
      returns (answered: bool, events: seq<Event>, validMembers: seq<string>)
      requires Valid(batchWriter.outboxMapper.table) && NoRepeats(members)
      requires s == StoreOf(v) && RoundAt(v, s, s, members, 0, now)
      modifies this, redis
      ensures calls >= old(calls) && (answered <==> AnsweredSince(old(calls)))
      ensures answered ==> RoundAt(v, s, StoreOf(v), members, |members|, now)
      ensures answered ==> events == Events(v, members, now) && validMembers == WellFormed(v, members, now)
      ensures Turn(v, s, StoreOf(v), batchSize, now, false)
      ensures redis.handoff - {v} == old(redis.handoff) - {v}
    {
      hide RoundAt, Quarantined, Turn, NoRepeats, Events, WellFormed, MemberCodec.Parse, Valid, Remove;
      answered, events, validMembers := true, [], [];
      assert members[0..] == members;
      for i := 0 to |members|
        invariant calls >= old(calls) && AnsweredSince(old(calls)) && answered
        invariant RoundAt(v, s, StoreOf(v), members, i, now)
        invariant events + Events(v, members[i..], now) == Events(v, members, now)
        invariant validMembers + WellFormed(v, members[i..], now) == WellFormed(v, members, now)
        invariant redis.handoff - {v} == old(redis.handoff) - {v}
      {
        var event := MemberCodec.Parse(v, members[i], now);
        NextMember(v, s, StoreOf(v), members, i, now);
        if event.None? {
          answered := Quarantine(v, members[i], "malformed");
          if !answered {
            RoundAccounted(v, s, StoreOf(v), members, if fate(calls - 1).Lost? then i else i + 1, batchSize, now);
            return;
          }
          assert fate(calls - 1).Answered?;
        } else {
          events := events + [event.value];
          validMembers := validMembers + [members[i]];
        }
      }
      RoundAccounted(v, s, StoreOf(v), members, |members|, batchSize, now);
      NothingLeft(v, members, now, events, validMembers);
    }

    /** One voucher's turn. Without a failed call its first members are handled each on its own, in
        order; in any case every member is still in the queue, stored or quarantined. */
    method RelayVoucher(v: VoucherId, now: Time) returns (done: bool, found: bool)
      requires Valid(batchWriter.outboxMapper.table) && NoRepeats(redis.Queue(v))
      modifies this, redis, batchWriter.outboxMapper
      ensures Valid(batchWriter.outboxMapper.table)
      ensures calls >= old(calls) && (done <==> AnsweredSince(old(calls)))
      ensures done ==> StoreOf(v) == InOrder(v, old(StoreOf(v)), First(old(redis.Queue(v)), batchSize), now)
      ensures Turn(v, old(StoreOf(v)), StoreOf(v), batchSize, now, done)
      ensures found <==> First(old(redis.Queue(v)), batchSize) != []
      ensures redis.handoff - {v} == old(redis.handoff) - {v}
    {
      hide InOrder, OneByOne, Remove, Progress, RoundAt, Quarantined, Turn, NoRepeats, Events, WellFormed;
      var members := redis.FindFirst(v, batchSize);
      ghost var s := StoreOf(v);
      FirstOfQueue(s.queue, members);
      RoundStart(v, s, members, now);
      found := members != [];
      if !found {
        RoundAccounted(v, s, s, members, 0, batchSize, now);
        return true, false;
      }
      var answered, events, validMembers := SortOut(v, s, members, now);
      if !answered {
        return false, true;
      }
      MalformedAreMembers(v, members, now);
      ghost var s1, handled := StoreOf(v), 0;
      done, handled := PersistWithIsolation(v, events, validMembers);
      RoundDone(v, s, s1, StoreOf(v), members, handled, batchSize, done, now);
    }

    /** Without a failed call the beginning of every listed voucher's queue has been worked off. */
    method RelayOneRound(voucherIds: seq<VoucherId>, now: Time) returns (done: bool, found: bool)
      requires Valid(batchWriter.outboxMapper.table)
      requires forall v :: NoRepeats(redis.Queue(v))
      modifies this, redis, batchWriter.outboxMapper
      ensures Valid(batchWriter.outboxMapper.table)
      ensures done <==> AnsweredSince(old(calls))
      ensures Turns(old(Everything()), Everything(), if done then Set(voucherIds) else {}, batchSize, now)
      ensures done ==> (found <==> exists v | v in voucherIds :: old(redis.Queue(v)) != [])
    {
      hide Turns, Turn, InOrder, Valid, NoRepeats;
      found := false;
      ghost var w := Everything();
      assert forall v :: QueueIn(w, v) == redis.Queue(v);
      NoTurns(w, batchSize, now);
      assert Set(voucherIds[..0]) == {};
      for i := 0 to |voucherIds|
        invariant Valid(batchWriter.outboxMapper.table) && calls >= old(calls) && AnsweredSince(old(calls))
        invariant Turns(w, Everything(), Set(voucherIds[..i]), batchSize, now)
        invariant Waiting(w, Everything(), Set(voucherIds[..i]))
        invariant found <==> exists v | v in voucherIds[..i] :: QueueIn(w, v) != []
      {
        var v := voucherIds[i];
        ghost var w1 := Everything();
        QueuesSound(w, w1, Set(voucherIds[..i]), v, batchSize, now);
        var answered, some := RelayVoucher(v, now);
        found := found || some;
        NextTurn(w, w1, Everything(), Set(voucherIds[..i]), v, batchSize, now, answered);
        assert Set(voucherIds[..i + 1]) == Set(voucherIds[..i]) + {v};
        if !answered {
          return false, found;
        }
      }
      assert voucherIds[..|voucherIds|] == voucherIds;
      return true, found;
    }

    /** Without a failed call the batch ends where processing it one by one ends; after a failed call
        the first `handled` members are done with, and processing the others one by one still leads
        to that same end. */
    method PersistWithIsolation(v: VoucherId, events: seq<Event>, members: seq<string>)
      returns (done: bool, ghost handled: nat)
      requires |events| == |members| && NoRepeats(members)
      requires Valid(batchWriter.outboxMapper.table)
      modifies this, redis, batchWriter.outboxMapper
      ensures Valid(batchWriter.outboxMapper.table)
      ensures calls >= old(calls) && (done <==> AnsweredSince(old(calls)))
      ensures handled <= |events| && Progress(v, old(StoreOf(v)), StoreOf(v), events, members, handled)
      ensures done ==> handled == |events| && StoreOf(v) == OneByOne(v, old(StoreOf(v)), events, members)
      ensures redis.handoff - {v} == old(redis.handoff) - {v}
      ensures events != [] ==> old(attempts) + 1 <= attempts <= old(attempts) + 2 * |events| - 1
      ensures events == [] || Commit(old(StoreOf(v).rows), events).Ok? ==>
                attempts == old(attempts) + (if events == [] then 0 else 1)
      decreases |events|
    {
      hide Progress, OneByOne, Completed, Quarantined, Remove, Commit, NoRepeats;
      ghost var s := StoreOf(v);
      NothingDone(v, s, events, members);
      if events == [] {
        Finished(v, s, s, events, members);
        return true, 0;
      }
      var answer := InsertCommitted(events);
      if answer.None? {
        CommittedBatch(v, s, events, members);
        return false, 0;
      }
      if answer.value {
        CommittedBatch(v, s, events, members);
        done := CompleteBatch(v, events, members);
        handled := if fate(calls - 1).Lost? then 0 else |events|;
        if done {
          Finished(v, s, StoreOf(v), events, members);
        }
        return;
      }
      if |events| == 1 {
        LoneMember(v, s, events, members);
        done := Quarantine(v, members[0], "data-integrity");
        handled := if fate(calls - 1).Lost? then 0 else 1;
        if done {
          Finished(v, s, StoreOf(v), events, members);
        }
        return;
      }
      var middle := |events| / 2;
      NoRepeatsInHalves(members, middle);
      done, handled := PersistWithIsolation(v, events[..middle], members[..middle]);
      if !done {
        LeftPart(v, s, StoreOf(v), events, members, middle, handled);
        return;
      }
      ghost var s1, right := StoreOf(v), 0;
      done, right := PersistWithIsolation(v, events[middle..], members[middle..]);
      handled := middle + right;
      RightPart(v, s, s1, StoreOf(v), events, members, middle, right);
      if done {
        Finished(v, s, StoreOf(v), events, members);
      }
    }
  }

  // ---- A round of the relay ----

  function Handle(v: VoucherId, s: Store, member: string, now: Time): Store {
    match MemberCodec.Parse(v, member, now)
    case Some(e) => One(v, s, e, member)
    case None => Quarantined(v, s, member, "malformed")
  }

  /** Every member handled on its own, in the order of the queue. */
  function InOrder(v: VoucherId, s: Store, members: seq<string>, now: Time): Store
    decreases |members|
  {
    if members == [] then s else InOrder(v, Handle(v, s, members[0], now), members[1..], now)
  }

  function Malformed(v: VoucherId, members: seq<string>, now: Time): seq<string> {
    if members == [] then []
    else (if MemberCodec.Parse(v, members[0], now).None? then [members[0]] else []) + Malformed(v, members[1..], now)
  }

  function WellFormed(v: VoucherId, members: seq<string>, now: Time): (good: seq<string>)
    ensures forall m | m in good :: m in members && MemberCodec.Parse(v, m, now).Some?
  {
    if members == [] then []
    else (if MemberCodec.Parse(v, members[0], now).Some? then [members[0]] else []) + WellFormed(v, members[1..], now)
  }

  function Events(v: VoucherId, members: seq<string>, now: Time): (events: seq<Event>)
    ensures |events| == |WellFormed(v, members, now)|
  {
    if members == [] then []
    else match MemberCodec.Parse(v, members[0], now)
      case Some(e) => [e] + Events(v, members[1..], now)
      case None => Events(v, members[1..], now)
  }

  lemma {:induction false} EventsAreParsed(v: VoucherId, members: seq<string>, now: Time, i: nat)
    requires i < |Events(v, members, now)|
    ensures MemberCodec.Parse(v, WellFormed(v, members, now)[i], now) == Some(Events(v, members, now)[i])
  {
    hide MemberCodec.Parse;
    if MemberCodec.Parse(v, members[0], now).None? {
      EventsAreParsed(v, members[1..], now, i);
    } else if i > 0 {
      EventsAreParsed(v, members[1..], now, i - 1);
    }
  }

  function QuarantinedAll(v: VoucherId, s: Store, members: seq<string>): Store
    decreases |members|
  {
    if members == [] then s else QuarantinedAll(v, Quarantined(v, s, members[0], "malformed"), members[1..])
  }

  lemma StepsCommute(v: VoucherId, s: Store, e: Event, member: string, b: string)
    requires member != b
    ensures One(v, Quarantined(v, s, b, "malformed"), e, member) == Quarantined(v, One(v, s, e, member), b, "malformed")
  {
    hide Remove, Commit;
    RemoveTwice(s.queue, {member}, {b});
    RemoveTwice(s.queue, {b}, {member});
    assert {b} + {member} == {member} + {b} && Set([member]) == {member};
    assert s.quarantine + {Entry(v, b, "malformed")} + {Entry(v, member, "data-integrity")}
        == s.quarantine + {Entry(v, member, "data-integrity")} + {Entry(v, b, "malformed")};
  }

  lemma {:induction false} QuarantineCommutes(v: VoucherId, s: Store, e: Event, member: string, bad: seq<string>)
    requires member !in bad
    ensures One(v, QuarantinedAll(v, s, bad), e, member) == QuarantinedAll(v, One(v, s, e, member), bad)
    decreases |bad|
  {
    hide One, Quarantined, Remove;
    if bad != [] {
      StepsCommute(v, s, e, member, bad[0]);
      QuarantineCommutes(v, Quarantined(v, s, bad[0], "malformed"), e, member, bad[1..]);
    }
  }

  /** Putting the malformed members away first makes no difference. */
  lemma {:induction false} MalformedFirst(v: VoucherId, s: Store, members: seq<string>, now: Time)
    requires NoRepeats(members)
    ensures OneByOne(v, QuarantinedAll(v, s, Malformed(v, members, now)), Events(v, members, now),
        WellFormed(v, members, now))
         == InOrder(v, s, members, now)
    decreases |members|
  {
    hide One, Quarantined, Remove;
    if members != [] {
      var m, rest := members[0], members[1..];
      MalformedFirst(v, Handle(v, s, m, now), rest, now);
      MalformedAreMembers(v, rest, now);
      match MemberCodec.Parse(v, m, now)
      case Some(e) =>
        QuarantineCommutes(v, s, e, m, Malformed(v, rest, now));
        assert ([e] + Events(v, rest, now))[1..] == Events(v, rest, now);
        assert ([m] + WellFormed(v, rest, now))[1..] == WellFormed(v, rest, now);
        assert [] + Malformed(v, rest, now) == Malformed(v, rest, now);
      case None =>
        assert ([m] + Malformed(v, rest, now))[1..] == Malformed(v, rest, now);
        assert [] + WellFormed(v, rest, now) == WellFormed(v, rest, now);
    }
  }

  lemma {:induction false} MalformedAreMembers(v: VoucherId, members: seq<string>, now: Time)
    ensures forall m :: m in Malformed(v, members, now) <==> m in members && MemberCodec.Parse(v, m, now).None?
    ensures NoRepeats(members) ==> NoRepeats(WellFormed(v, members, now))
  {
    if members != [] {
      MalformedAreMembers(v, members[1..], now);
      var good := WellFormed(v, members[1..], now);
      assert [] + good == good;
    }
  }

  predicate Settled(v: VoucherId, s: Store, member: string, now: Time) {
    match MemberCodec.Parse(v, member, now)
    case Some(e) => Handled(v, s, e, member)
    case None => Entry(v, member, "malformed") in s.quarantine
  }

  predicate Accounted(v: VoucherId, s: Store, member: string, now: Time) {
    member in s.queue || Settled(v, s, member, now)
  }

  /** Nothing that was stored or quarantined is lost, nothing new is in the queue, and what left it is
      stored or quarantined; a completed turn works the first members off. */
  ghost predicate Turn(v: VoucherId, s: Store, s': Store, limit: nat, now: Time, done: bool) {
    && NoRepeats(s'.queue) && Grows(s, s')
    && (forall m | m in s'.queue :: m in s.queue)
    && (forall m | m in s.queue :: Accounted(v, s', m, now))
    && (done ==> forall m | m in First(s.queue, limit) :: m !in s'.queue)
  }

  // The members before i were well-formed or have been quarantined.
  ghost predicate RoundAt(v: VoucherId, s: Store, s': Store, members: seq<string>, i: nat, now: Time)
    requires i <= |members|
  {
    && QuarantinedAll(v, s', Malformed(v, members[i..], now)) == QuarantinedAll(v, s, Malformed(v, members, now))
    && NoRepeats(s'.queue) && Grows(s, s')
    && (forall m | m in s'.queue :: m in s.queue)
    && (forall m | m in s.queue :: Accounted(v, s', m, now))
    && (forall j | 0 <= j < i && MemberCodec.Parse(v, members[j], now).None? :: members[j] !in s'.queue)
    && (forall j | i <= j < |members| :: members[j] in s'.queue)
  }

  lemma FirstOfQueue(queue: seq<string>, members: seq<string>)
    requires NoRepeats(queue) && members <= queue
    ensures NoRepeats(members) && forall m | m in members :: m in queue
  {
  }

  lemma RoundStart(v: VoucherId, s: Store, members: seq<string>, now: Time)
    requires NoRepeats(s.queue) && forall m | m in members :: m in s.queue
    ensures RoundAt(v, s, s, members, 0, now)
    ensures [] + Events(v, members[0..], now) == Events(v, members, now)
    ensures [] + WellFormed(v, members[0..], now) == WellFormed(v, members, now)
    ensures members == [] ==> InOrder(v, s, members, now) == s
  {
    assert members[0..] == members;
  }

  lemma NothingLeft(v: VoucherId, members: seq<string>, now: Time, events: seq<Event>, validMembers: seq<string>)
    requires NoRepeats(members)
    requires events + Events(v, members[|members|..], now) == Events(v, members, now)
    requires validMembers + WellFormed(v, members[|members|..], now) == WellFormed(v, members, now)
    ensures events == Events(v, members, now) && validMembers == WellFormed(v, members, now) && NoRepeats(validMembers)
  {
    MalformedAreMembers(v, members, now);
    assert members[|members|..] == [];
    assert events + [] == events && validMembers + [] == validMembers;
  }

  lemma {:induction false} RemoveKeepsNoRepeats(queue: seq<string>, gone: set<string>)
    requires NoRepeats(queue)
    ensures NoRepeats(Remove(queue, gone))
  {
    if queue != [] {
      RemoveKeepsNoRepeats(queue[1..], gone);
    }
  }

  lemma NextLists(v: VoucherId, members: seq<string>, i: nat, now: Time)
    requires i < |members|
    ensures Malformed(v, members[i..], now)
         == (if MemberCodec.Parse(v, members[i], now).None? then [members[i]] else [])
            + Malformed(v, members[i + 1..], now)
    ensures match MemberCodec.Parse(v, members[i], now)
            case None => && Events(v, members[i..], now) == Events(v, members[i + 1..], now)
                         && WellFormed(v, members[i..], now) == WellFormed(v, members[i + 1..], now)
            case Some(e) => && Events(v, members[i..], now) == [e] + Events(v, members[i + 1..], now)
                            && WellFormed(v, members[i..], now) == [members[i]] + WellFormed(v, members[i + 1..], now)
  {
    assert members[i..][1..] == members[i + 1..] && members[i..][0] == members[i];
  }

  lemma NextMember(v: VoucherId, s: Store, s': Store, members: seq<string>, i: nat, now: Time)
    requires i < |members| && NoRepeats(members) && RoundAt(v, s, s', members, i, now)
    ensures match MemberCodec.Parse(v, members[i], now)
            case None => && RoundAt(v, s, Quarantined(v, s', members[i], "malformed"), members, i + 1, now)
                         && Events(v, members[i..], now) == Events(v, members[i + 1..], now)
                         && WellFormed(v, members[i..], now) == WellFormed(v, members[i + 1..], now)
            case Some(e) => && RoundAt(v, s, s', members, i + 1, now)
                            && Events(v, members[i..], now) == [e] + Events(v, members[i + 1..], now)
                            && WellFormed(v, members[i..], now) == [members[i]] + WellFormed(v, members[i + 1..], now)
  {
    hide Remove, Grows, Events, WellFormed, Malformed;
    NextLists(v, members, i, now);
    var rest := Malformed(v, members[i + 1..], now);
    if MemberCodec.Parse(v, members[i], now).Some? {
      assert [] + rest == rest;
    } else {
      assert ([members[i]] + rest)[1..] == rest;
      RemoveKeepsNoRepeats(s'.queue, {members[i]});
      GrowsTwice(v, s, s', Quarantined(v, s', members[i], "malformed"), now);
    }
  }

  lemma GrowsTwice(v: VoucherId, s: Store, s1: Store, s2: Store, now: Time)
    requires Grows(s, s1)
    ensures Grows(s1, s2) ==> Grows(s, s2) && forall m | Settled(v, s1, m, now) :: Settled(v, s2, m, now)
    ensures s1.rows == s2.rows && s1.quarantine <= s2.quarantine ==> Grows(s1, s2)
  {
  }

  lemma RoundAccounted(v: VoucherId, s: Store, s': Store, members: seq<string>, i: nat, limit: nat, now: Time)
    requires i <= |members| && RoundAt(v, s, s', members, i, now)
    ensures Turn(v, s, s', limit, now, false)
    ensures First(s.queue, limit) == [] ==> Turn(v, s, s', limit, now, true)
  {
    hide Grows, NoRepeats, Accounted, QuarantinedAll;
  }

  lemma RoundDone(
    v: VoucherId, s: Store, s1: Store, s2: Store, members: seq<string>, handled: nat, limit: nat, done: bool, now: Time)
    requires NoRepeats(members) && members == First(s.queue, limit)
    requires RoundAt(v, s, s1, members, |members|, now)
    requires handled <= |Events(v, members, now)| && (done ==> handled == |Events(v, members, now)|)
    requires Progress(v, s1, s2, Events(v, members, now), WellFormed(v, members, now), handled)
    ensures Turn(v, s, s2, limit, now, done)
    ensures done ==> s2 == InOrder(v, s, members, now)
  {
    hide OneByOne, Handled, InOrder, Settled, Grows, NoRepeats, QuarantinedAll, Malformed, Remove, Accounted, Events;
    var events, good := Events(v, members, now), WellFormed(v, members, now);
    RemoveKeepsNoRepeats(s1.queue, Set(good[..handled]));
    GrowsTwice(v, s, s1, s2, now);
    forall m | m in s.queue ensures Accounted(v, s2, m, now) {
      StillAccounted(v, s1, s2, members, handled, now, m);
    }
    if done {
      assert good[..handled] == good;
      Finished(v, s1, s2, events, good);
      RoundEnd(v, s, s1, members, now);
      MalformedFirst(v, s, members, now);
      forall m | m in members ensures m !in s2.queue {
        if MemberCodec.Parse(v, m, now).Some? {
          WellFormedAreMembers(v, members, now, m);
        }
      }
    }
  }

  lemma StillAccounted(v: VoucherId, s1: Store, s2: Store, members: seq<string>, handled: nat, now: Time, m: string)
    requires handled <= |Events(v, members, now)|
    requires Progress(v, s1, s2, Events(v, members, now), WellFormed(v, members, now), handled)
    requires Accounted(v, s1, m, now)
    ensures Accounted(v, s2, m, now)
  {
    hide OneByOne, Remove, Events, WellFormed;
    GrowsTwice(v, s1, s1, s2, now);
    var events, good := Events(v, members, now), WellFormed(v, members, now);
    if m in s1.queue && m !in s2.queue {
      assert m in Set(good[..handled]);
      var i :| 0 <= i < handled && good[i] == m;
      EventsAreParsed(v, members, now, i);
    }
  }

  lemma RoundEnd(v: VoucherId, s: Store, s1: Store, members: seq<string>, now: Time)
    requires RoundAt(v, s, s1, members, |members|, now)
    ensures s1 == QuarantinedAll(v, s, Malformed(v, members, now))
  {
    assert members[|members|..] == [];
  }

  lemma {:induction false} WellFormedAreMembers(v: VoucherId, members: seq<string>, now: Time, m: string)
    requires m in members && MemberCodec.Parse(v, m, now).Some?
    ensures m in WellFormed(v, members, now)
  {
    if m != members[0] {
      WellFormedAreMembers(v, members[1..], now, m);
    }
  }

  /** No queue gains or loses a member unaccounted for, and the first members of the vouchers that had
      their turn are stored or quarantined. */
  ghost predicate Turns(w: World, w': World, had: set<VoucherId>, limit: nat, now: Time) {
    && Extends(w.rows, w'.rows) && w.quarantine <= w'.quarantine
    && (forall v :: NoRepeats(QueueIn(w', v)))
    && (forall v, m | m in QueueIn(w', v) :: m in QueueIn(w, v))
    && (forall v, m | m in QueueIn(w, v) :: m in QueueIn(w', v) || Settled(v, StoreIn(w', v), m, now))
    && (forall v, m | v in had && m in First(QueueIn(w, v), limit) :: m !in QueueIn(w', v))
  }

  ghost predicate Waiting(w: World, w': World, had: set<VoucherId>) {
    forall v | v !in had :: QueueIn(w', v) == QueueIn(w, v)
  }

  lemma QueuesSound(w: World, w': World, had: set<VoucherId>, v: VoucherId, limit: nat, now: Time)
    requires Turns(w, w', had, limit, now)
    ensures NoRepeats(QueueIn(w', v))
    ensures QueueIn(w', v) != [] ==> QueueIn(w, v) != []
  {
    assert QueueIn(w', v) != [] ==> QueueIn(w', v)[0] in QueueIn(w, v);
  }

  lemma NextTurn(w: World, w1: World, w2: World, had: set<VoucherId>, v: VoucherId, limit: nat, now: Time, done: bool)
    requires Turns(w, w1, had, limit, now) && Waiting(w, w1, had)
    requires Turn(v, StoreIn(w1, v), StoreIn(w2, v), limit, now, done)
    requires w2.handoff - {v} == w1.handoff - {v}
    ensures Turns(w, w2, if done then had + {v} else {}, limit, now)
    ensures done ==> Waiting(w, w2, had + {v})
  {
    hide NoRepeats, First;
    forall u | u != v ensures QueueIn(w2, u) == QueueIn(w1, u) {
      assert u in w2.handoff <==> u in w2.handoff - {v};
      assert u in w1.handoff <==> u in w1.handoff - {v};
    }
    forall u, m | m in QueueIn(w, u) ensures m in QueueIn(w2, u) || Settled(u, StoreIn(w2, u), m, now) {
      StaysSettled(u, StoreIn(w1, u), StoreIn(w2, u), m, now);
    }
  }

  lemma StaysSettled(v: VoucherId, s: Store, s': Store, m: string, now: Time)
    requires Grows(s, s')
    ensures Settled(v, s, m, now) ==> Settled(v, s', m, now)
  {
  }

  lemma NoTurns(w: World, limit: nat, now: Time)
    requires forall v :: NoRepeats(QueueIn(w, v))
    ensures Turns(w, w, {}, limit, now) && Waiting(w, w, {})
  {
  }

  // ---- How far a batch is done ----

  ghost predicate Progress(v: VoucherId, s: Store, s': Store, events: seq<Event>, members: seq<string>, handled: nat)
    requires handled <= |events| == |members|
  {
    && OneByOne(v, s', events[handled..], members[handled..]) == OneByOne(v, s, events, members)
    && s'.queue == Remove(s.queue, Set(members[..handled]))
    && Grows(s, s')
    && (forall i | 0 <= i < handled && members[i] in s.queue :: Handled(v, s', events[i], members[i]))
  }

  lemma NothingDone(v: VoucherId, s: Store, events: seq<Event>, members: seq<string>)
    requires |events| == |members|
    ensures Progress(v, s, s, events, members, 0)
  {
    assert events[0..] == events && members[0..] == members;
    RemoveNothing(s.queue, Set(members[..0]));
  }

  lemma Finished(v: VoucherId, s: Store, s': Store, events: seq<Event>, members: seq<string>)
    requires |events| == |members| && Progress(v, s, s', events, members, |events|)
    ensures s' == OneByOne(v, s, events, members)
  {
  }

  // Whether the insert, the completion or neither took effect, the rest leads to the same end.
  lemma CommittedBatch(v: VoucherId, s: Store, events: seq<Event>, members: seq<string>)
    requires |events| == |members| && events != [] && NoRepeats(members)
    ensures Commit(s.rows, events).Ok? ==>
              var s1 := s.(rows := Commit(s.rows, events).value);
              && Progress(v, s, s1, events, members, 0)
              && Progress(v, s, Completed(s1, events, members), events, members, |events|)
    ensures Progress(v, s, s, events, members, 0)
  {
    assert members[..|events|] == members && events[0..] == events && members[0..] == members;
    NothingDone(v, s, events, members);
    if Commit(s.rows, events).Ok? {
      CommitStores(s.rows, events);
      BatchIsOneByOne(v, s, events, members);
      CommitAgain(s.rows, events);
      BatchIsOneByOne(v, s.(rows := Commit(s.rows, events).value), events, members);
    }
  }

  lemma LoneMember(v: VoucherId, s: Store, events: seq<Event>, members: seq<string>)
    requires |events| == |members| == 1 && Commit(s.rows, events).Err?
    ensures Progress(v, s, Quarantined(v, s, members[0], "data-integrity"), events, members, 1)
  {
    assert events == [events[0]] && members == [members[0]];
    OneRight(v, s, events[0], members[0]);
    assert Set(members[..1]) == {members[0]};
  }

  lemma LeftPart(v: VoucherId, s: Store, s1: Store, events: seq<Event>, members: seq<string>, middle: nat, handled: nat)
    requires handled <= middle <= |events| == |members|
    requires Progress(v, s, s1, events[..middle], members[..middle], handled)
    ensures Progress(v, s, s1, events, members, handled)
  {
    hide OneByOne, Remove, Grows, Handled, Set;
    Halves(events, middle);
    Halves(members, middle);
    RestOfLeft(events, middle, handled);
    RestOfLeft(members, middle, handled);
    OneByOneConcat(v, s, events[..middle], members[..middle], events[middle..], members[middle..]);
    OneByOneConcat(v, s1, events[..middle][handled..], members[..middle][handled..], events[middle..], members[middle..]);
    forall i | 0 <= i < handled && members[i] in s.queue ensures Handled(v, s1, events[i], members[i]) {
      assert events[..middle][i] == events[i] && members[..middle][i] == members[i];
    }
  }

  lemma RightPart(
    v: VoucherId, s: Store, s1: Store, s2: Store, events: seq<Event>, members: seq<string>, middle: nat, right: nat)
    requires middle + right <= |events| == |members| && NoRepeats(members)
    requires Progress(v, s, s1, events[..middle], members[..middle], middle)
    requires Progress(v, s1, s2, events[middle..], members[middle..], right)
    ensures Progress(v, s, s2, events, members, middle + right)
  {
    hide OneByOne, NoRepeats, Handled;
    RightRest(v, s, s1, s2, events, members, middle, right);
    assert members[..middle][..middle] == members[..middle];
    QueueOfBoth(s.queue, members, middle, right);
    forall i | 0 <= i < middle + right && members[i] in s.queue ensures Handled(v, s2, events[i], members[i]) {
      RightHandled(v, s, s1, s2, events, members, middle, right, i);
    }
  }

  lemma RightHandled(
    v: VoucherId, s: Store, s1: Store, s2: Store, events: seq<Event>, members: seq<string>, middle: nat, right: nat,
        i: nat)
    requires i < middle + right <= |events| == |members| && NoRepeats(members)
    requires Progress(v, s, s1, events[..middle], members[..middle], middle)
    requires Progress(v, s1, s2, events[middle..], members[middle..], right)
    requires members[i] in s.queue
    ensures Handled(v, s2, events[i], members[i])
  {
    hide OneByOne;
    if i < middle {
      assert members[..middle][i] == members[i] && events[..middle][i] == events[i];
    } else {
      assert members[middle..][i - middle] == members[i] && events[middle..][i - middle] == events[i];
    }
  }

  lemma RightRest(
    v: VoucherId, s: Store, s1: Store, s2: Store, events: seq<Event>, members: seq<string>, middle: nat, right: nat)
    requires middle + right <= |events| == |members|
    requires Progress(v, s, s1, events[..middle], members[..middle], middle)
    requires Progress(v, s1, s2, events[middle..], members[middle..], right)
    ensures OneByOne(v, s2, events[middle + right..], members[middle + right..]) == OneByOne(v, s, events, members)
  {
    Finished(v, s, s1, events[..middle], members[..middle]);
    hide OneByOne, Remove, NoRepeats, Set, Grows, Handled;
    OneByOneConcat(v, s, events[..middle], members[..middle], events[middle..], members[middle..]);
    Halves(events, middle);
    Halves(members, middle);
    RestOfRight(events, middle, right);
    RestOfRight(members, middle, right);
  }

  lemma QueueOfBoth(queue: seq<string>, members: seq<string>, middle: nat, right: nat)
    requires middle + right <= |members|
    ensures Remove(Remove(queue, Set(members[..middle])), Set(members[middle..][..right]))
         == Remove(queue, Set(members[..middle + right]))
  {
    RestOfRight(members, middle, right);
    RemoveTwice(queue, Set(members[..middle]), Set(members[middle..][..right]));
    SetOfBoth(members[..middle], members[middle..][..right]);
  }

  lemma Halves<T>(s: seq<T>, middle: nat)
    requires middle <= |s|
    ensures s[..middle] + s[middle..] == s
  {
  }

  lemma RestOfLeft<T>(s: seq<T>, middle: nat, handled: nat)
    requires handled <= middle <= |s|
    ensures s[..middle][handled..] + s[middle..] == s[handled..] && s[..middle][..handled] == s[..handled]
  {
  }

  lemma RestOfRight<T>(s: seq<T>, middle: nat, right: nat)
    requires middle + right <= |s|
    ensures s[middle..][right..] == s[middle + right..]
    ensures s[..middle] + s[middle..][..right] == s[..middle + right]
  {
  }

  lemma NoRepeatsInHalves(s: seq<string>, middle: nat)
    requires NoRepeats(s) && middle <= |s|
    ensures NoRepeats(s[..middle]) && NoRepeats(s[middle..])
  {
  }

  lemma SetOfBoth(a: seq<string>, b: seq<string>)
    ensures Set(a + b) == Set(a) + Set(b)
  {
  }
}
