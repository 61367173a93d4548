/** Turns Kafka messages into orders and completes their outbox rows, in one transaction a batch. */
module OrderConsumer {
  import opened Wrappers
  import opened SeckillTypes
  import opened OutboxRows
  import opened OutboxTable
  import opened OrderPersistence

  // A message as it arrives; messages older than the outbox id field have none.
  datatype RawMessage =
    | NullMessage
    | RawMessage(outboxId: Option<RowId>, orderId: Option<OrderId>, voucherId: Option<VoucherId>, userId: Option<UserId>)

  datatype Message = Message(outboxId: Option<RowId>, orderId: OrderId, voucherId: VoucherId, userId: UserId)

  datatype ConsumeError = IllegalMessage | NotCreated(reason: CreateError)

  datatype State = State(db: Db, table: Table)

  predicate Readable(raw: RawMessage) {
    raw.RawMessage? && raw.orderId.Some? && raw.voucherId.Some? && raw.userId.Some?
  }

  function Read(raw: RawMessage): Message
    requires Readable(raw)
  {
    Message(raw.outboxId, raw.orderId.value, raw.voucherId.value, raw.userId.value)
  }

  function ReadAll(raws: seq<RawMessage>): (messages: seq<Message>)
    requires forall i | 0 <= i < |raws| :: Readable(raws[i])
    ensures |messages| == |raws| && forall i | 0 <= i < |raws| :: messages[i] == Read(raws[i])
  {
    seq(|raws|, i requires 0 <= i < |raws| => Read(raws[i]))
  }

  function OrderIn(m: Message): VoucherOrder {
    VoucherOrder(m.orderId, m.userId, m.voucherId)
  }

  // Equal order ids come with equal vouchers and users.
  predicate Agree(messages: seq<Message>) {
    forall i, j | 0 <= i < j < |messages| :: messages[i].orderId == messages[j].orderId ==>
      OrderIn(messages[i]) == OrderIn(messages[j])
  }

  function OrderIdsOf(messages: seq<Message>): set<OrderId> {
    set i | 0 <= i < |messages| :: messages[i].orderId
  }

  predicate Mentions(orders: seq<VoucherOrder>, id: OrderId) {
    exists o | o in orders :: o.id == id
  }

  /** The first message of each order, in the order they came. */
  function Firsts(messages: seq<Message>): seq<VoucherOrder> {
    if messages == [] then []
    else
      var before, m := Firsts(messages[..|messages| - 1]), messages[|messages| - 1];
      if Mentions(before, m.orderId) then before else before + [OrderIn(m)]
  }

  /** The first outbox id given for each order. */
  function OutboxIds(messages: seq<Message>): map<OrderId, RowId> {
    if messages == [] then map[]
    else
      var before, m := OutboxIds(messages[..|messages| - 1]), messages[|messages| - 1];
      if m.outboxId.Some? && m.orderId !in before then before[m.orderId := m.outboxId.value] else before
  }

  // Rows are completed by outbox id if every order has one, and by order id otherwise.
  function CompletedOrders(t: Table, messages: seq<Message>): set<OrderId> {
    var ids := OutboxIds(messages);
    if |ids| == |Firsts(messages)| then OrdersOf(t, ids.Values) else OrderIdsOf(messages)
  }

  function Consume(s: State, messages: seq<Message>, now: Time): Result<State, ConsumeError> {
    if !Agree(messages) then Err(IllegalMessage)
    else match CreateGrouped(s.db, Firsts(messages), now)
      case Err(e) => Err(NotCreated(e))
      case Ok(db) =>
        Ok(State(db, s.table.(rows := UpdateRows(s.table.rows, CompletedOrders(s.table, messages), MarkCompleted, now))))
  }

  // ---- The service ----

  class SeckillOrderConsumerService {
    const persistenceService: VoucherOrderPersistenceService
    const outboxMapper: OutboxMapper

    constructor (persistenceService: VoucherOrderPersistenceService, outboxMapper: OutboxMapper)
      ensures this.persistenceService == persistenceService && this.outboxMapper == outboxMapper
    {
      this.persistenceService, this.outboxMapper := persistenceService, outboxMapper;
    }

    ghost function Current(): State
      reads persistenceService.database, outboxMapper
    {
      State(persistenceService.database.db, outboxMapper.table)
    }

    method CreateOrders(raws: seq<RawMessage>, now: Time) returns (r: Result<seq<VoucherOrder>, ConsumeError>)
      requires Valid(outboxMapper.table)
      modifies persistenceService.database, outboxMapper
      ensures Valid(outboxMapper.table)
      ensures raws == [] ==> r == Ok([]) && Current() == old(Current())
      ensures raws != [] ==>
                if forall i | 0 <= i < |raws| :: Readable(raws[i])
                then match Consume(old(Current()), ReadAll(raws), now)
                     case Ok(s) => r == Ok(Firsts(ReadAll(raws))) && Current() == s
                     case Err(e) => r == Err(e) && Current() == old(Current())
                else r == Err(IllegalMessage) && Current() == old(Current())
    {
      if raws == [] {
        return Ok([]);
      }
      var collected := Collect(raws);
      if collected.None? {
        return Err(IllegalMessage);
      }
      var (orders, outboxIdsByOrder) := collected.value;
      var rawOrders := seq(|orders|, i requires 0 <= i < |orders| =>
        RawOrder(Some(orders[i].id), Some(orders[i].userId), Some(orders[i].voucherId)));
      assert WholeOrders(rawOrders) == orders;
      var created := persistenceService.CreateVoucherOrders(rawOrders, now);
      if created.Err? {
        return Err(NotCreated(created.error));
      }
      if |outboxIdsByOrder| == |orders| {
        var _ := outboxMapper.UpdateByIds(outboxIdsByOrder.Values, MarkCompleted, now);
      } else {
        FirstsAreAll(ReadAll(raws));
        var orderIds := set o | o in orders :: o.id;
        assert orderIds == OrderIdsOf(ReadAll(raws));
        var _ := outboxMapper.UpdateByOrderIds(orderIds, MarkCompleted, now);
      }
      return Ok(orders);
    }

    static method Collect(raws: seq<RawMessage>) returns (r: Option<(seq<VoucherOrder>, map<OrderId, RowId>)>)
      ensures r.Some? <==> (forall i | 0 <= i < |raws| :: Readable(raws[i])) && Agree(ReadAll(raws))
      ensures r.Some? ==> r.value == (Firsts(ReadAll(raws)), OutboxIds(ReadAll(raws)))
    {
      hide Firsts, OutboxIds;
      NoMessages();
      var uniqueOrders: map<OrderId, VoucherOrder>, orders: seq<VoucherOrder> := map[], [];
      var outboxIdsByOrder: map<OrderId, RowId> := map[];
      ghost var messages: seq<Message> := [];
      for i := 0 to |raws|
        invariant (forall k | 0 <= k < i :: Readable(raws[k]))
        invariant |messages| == i && (forall k | 0 <= k < i :: messages[k] == Read(raws[k])) && Agree(messages)
        invariant orders == Firsts(messages) && outboxIdsByOrder == OutboxIds(messages)
        invariant forall id :: id in uniqueOrders <==> Mentions(orders, id)
        invariant forall k | 0 <= k < i ::
            messages[k].orderId in uniqueOrders && uniqueOrders[messages[k].orderId] == OrderIn(messages[k])
        invariant forall o | o in orders :: exists k :: 0 <= k < i && OrderIn(messages[k]) == o
      {
        if !Readable(raws[i]) {
          return None;
        }
        var m := Read(raws[i]);
        var order := OrderIn(m);
        OneMoreMessage(messages, m);
        if m.outboxId.Some? && m.orderId !in outboxIdsByOrder {
          outboxIdsByOrder := outboxIdsByOrder[m.orderId := m.outboxId.value];
        }
        if order.id in uniqueOrders {
          if uniqueOrders[order.id] != order {
            return None;
          }
        } else {
          uniqueOrders, orders := uniqueOrders[order.id := order], orders + [order];
        }
        messages := messages + [m];
      }
      assert messages == ReadAll(raws);
      return Some((orders, outboxIdsByOrder));
    }
  }

  lemma NoMessages()
    ensures Firsts([]) == [] && OutboxIds([]) == map[] && Agree([]) && forall id :: !Mentions([], id)
  {
  }

  lemma OneMoreMessage(messages: seq<Message>, m: Message)
    ensures Firsts(messages + [m])
         == if Mentions(Firsts(messages), m.orderId) then Firsts(messages) else Firsts(messages) + [OrderIn(m)]
    ensures OutboxIds(messages + [m])
         == if m.outboxId.Some? && m.orderId !in OutboxIds(messages)
            then OutboxIds(messages)[m.orderId := m.outboxId.value] else OutboxIds(messages)
    ensures forall id :: Mentions(Firsts(messages) + [OrderIn(m)], id) <==>
              Mentions(Firsts(messages), id) || id == m.orderId
  {
    assert (messages + [m])[..|messages|] == messages;
    var before, o := Firsts(messages), OrderIn(m);
    assert o in before + [o];
    forall id ensures Mentions(before + [o], id) <==> Mentions(before, id) || id == m.orderId {
      if Mentions(before, id) {
        var x :| x in before && x.id == id;
        assert x in before + [o];
      }
    }
  }

  predicate Has(messages: seq<Message>, o: VoucherOrder) {
    exists m | m in messages :: OrderIn(m) == o
  }

  lemma IdsOfMore(messages: seq<Message>)
    requires messages != []
    ensures OrderIdsOf(messages) == OrderIdsOf(messages[..|messages| - 1]) + {messages[|messages| - 1].orderId}
  {
    var front := messages[..|messages| - 1];
    forall id | id in OrderIdsOf(messages) ensures id in OrderIdsOf(front) + {messages[|messages| - 1].orderId} {
      var i :| 0 <= i < |messages| && messages[i].orderId == id;
      assert i < |front| ==> front[i].orderId == id;
    }
    forall id | id in OrderIdsOf(front) ensures id in OrderIdsOf(messages) {
      var i :| 0 <= i < |front| && front[i].orderId == id;
      assert messages[i].orderId == id;
    }
  }

  /** Each order of the batch once, as one of its messages gives it. */
  lemma {:induction false} FirstsAreAll(messages: seq<Message>)
    ensures forall id :: Mentions(Firsts(messages), id) <==> id in OrderIdsOf(messages)
    ensures forall o | o in Firsts(messages) :: Has(messages, o)
    ensures DistinctIds(Firsts(messages))
  {
    if messages != [] {
      var n := |messages| - 1;
      var front, m := messages[..n], messages[n];
      FirstsAreAll(front);
      IdsOfMore(messages);
      var before, all := Firsts(front), Firsts(messages);
      assert m in messages;
      forall id ensures Mentions(all, id) <==> Mentions(before, id) || id == m.orderId {
        assert all == before + [OrderIn(m)] ==> OrderIn(m) in all;
      }
      if !Mentions(before, m.orderId) {
        assert forall i | 0 <= i < |before| :: before[i] in before;
      }
    }
  }
}
