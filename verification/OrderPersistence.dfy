/** Writes batches of orders: grouped by voucher, one insert and one stock decrement each. */
module OrderPersistence {
  import opened Wrappers
  import opened SeckillTypes

  const UNPAID := 1
  const CANCELLED := 4

  datatype OrderRow = OrderRow(userId: UserId, voucherId: VoucherId, status: int)

  datatype Book = Book(orders: map<OrderId, OrderRow>, createdAt: map<OrderId, Time>)

  datatype Db = Db(book: Book, stock: map<VoucherId, int>)

  datatype VoucherOrder = VoucherOrder(id: OrderId, userId: UserId, voucherId: VoucherId)

  datatype CreateError =
    | Incomplete
    | NoSuchOrder(orderId: OrderId)
    | OrderIdConflict(orderId: OrderId, existing: OrderId)
    | StockMismatch(voucherId: VoucherId, amount: nat)

  // ---- The statements ----

  predicate Active(r: OrderRow) {
    r.status != CANCELLED
  }

  function Candidates(book: Book, u: UserId, v: VoucherId): set<OrderId> {
    set o | o in book.orders && book.orders[o].userId == u && book.orders[o].voucherId == v && Active(book.orders[o])
  }

  function CreatedAt(book: Book, o: OrderId): Time {
    if o in book.createdAt then book.createdAt[o] else 0
  }

  // ORDER BY create_time DESC, taking ties to go to the larger id.
  predicate Above(book: Book, a: OrderId, b: OrderId) {
    CreatedAt(book, a) > CreatedAt(book, b) || (CreatedAt(book, a) == CreatedAt(book, b) && a > b)
  }

  predicate Top(book: Book, c: set<OrderId>, id: OrderId) {
    id in c && forall x | x in c :: x == id || Above(book, id, x)
  }

  lemma {:induction false} SomeIsTop(book: Book, c: set<OrderId>)
    requires c != {}
    ensures exists id :: Top(book, c, id)
  {
    var a := SomeElement(c);
    var rest := c - {a};
    assert forall x :: x in c <==> x in rest || x == a;
    if rest == {} {
      assert Top(book, c, a);
    } else {
      SomeIsTop(book, rest);
      var b: OrderId :| b in rest && Top(book, rest, b);
      assert Top(book, c, if Above(book, a, b) then a else b);
    }
  }

  function SelectOrderId(book: Book, u: UserId, v: VoucherId): (r: Option<OrderId>)
    ensures r.None? ==> Candidates(book, u, v) == {}
    ensures r.Some? ==> Top(book, Candidates(book, u, v), r.value)
  {
    var c := Candidates(book, u, v);
    if c == {} then None
    else
      SomeIsTop(book, c);
      var id :| id in c && Top(book, c, id);
      Some(id)
  }

  predicate Newest(book: Book, o: VoucherOrder) {
    SelectOrderId(book, o.userId, o.voucherId) == Some(o.id)
  }

  // Only the primary key makes a row a duplicate.
  function InsertIgnore(book: Book, o: VoucherOrder, now: Time): Book {
    if o.id in book.orders then book
    else Book(book.orders[o.id := OrderRow(o.userId, o.voucherId, UNPAID)], book.createdAt[o.id := now])
  }

  function InsertOrders(book: Book, orders: seq<VoucherOrder>, now: Time): Book
    decreases |orders|
  {
    if orders == [] then book else InsertOrders(InsertIgnore(book, orders[0], now), orders[1..], now)
  }

  function Inserted(book: Book, orders: seq<VoucherOrder>, now: Time): (n: nat)
    ensures n <= |orders|
    decreases |orders|
  {
    if orders == [] then 0
    else (if orders[0].id in book.orders then 0 else 1) + Inserted(InsertIgnore(book, orders[0], now), orders[1..], now)
  }

  predicate Enough(stock: map<VoucherId, int>, v: VoucherId, n: nat) {
    v in stock && stock[v] >= n
  }

  // ---- Creating orders one by one in one transaction ----

  function Verify(book: Book, o: VoucherOrder): Option<CreateError> {
    match SelectOrderId(book, o.userId, o.voucherId)
    case None => Some(NoSuchOrder(o.id))
    case Some(existing) => if existing == o.id then None else Some(OrderIdConflict(o.id, existing))
  }

  function CreateOne(db: Db, o: VoucherOrder, now: Time): Result<Db, CreateError> {
    if o.id in db.book.orders then
      (match Verify(db.book, o) case None => Ok(db) case Some(e) => Err(e))
    else if !Enough(db.stock, o.voucherId, 1) then Err(StockMismatch(o.voucherId, 1))
    else Ok(Db(InsertIgnore(db.book, o, now), db.stock[o.voucherId := db.stock[o.voucherId] - 1]))
  }

  function CreateEach(db: Db, orders: seq<VoucherOrder>, now: Time): Result<Db, CreateError>
    decreases |orders|
  {
    if orders == [] then Ok(db)
    else match CreateOne(db, orders[0], now)
      case Err(e) => Err(e)
      case Ok(db1) => CreateEach(db1, orders[1..], now)
  }

  // ---- Creating them group by group ----

  function VerifyAll(book: Book, orders: seq<VoucherOrder>): (e: Option<CreateError>)
    ensures e.None? <==> forall i | 0 <= i < |orders| :: Newest(book, orders[i])
  {
    if orders == [] then None
    else
      var e := Verify(book, orders[0]);
      if e.Some? then e else VerifyAll(book, orders[1..])
  }

  function CreateGroup(db: Db, v: VoucherId, orders: seq<VoucherOrder>, now: Time): Result<Db, CreateError> {
    var book, n := InsertOrders(db.book, orders, now), Inserted(db.book, orders, now);
    var e := if n < |orders| then VerifyAll(book, orders) else None;
    if e.Some? then Err(e.value)
    else if n == 0 then Ok(Db(book, db.stock))
    else if !Enough(db.stock, v, n) then Err(StockMismatch(v, n))
    else Ok(Db(book, db.stock[v := db.stock[v] - n]))
  }

  function Only(orders: seq<VoucherOrder>, v: VoucherId): (r: seq<VoucherOrder>)
    ensures forall o | o in r :: o.voucherId == v
    ensures forall o | o in orders :: o.voucherId == v ==> o in r
    ensures |r| <= |orders| && (orders != [] && orders[0].voucherId == v ==> r != [])
  {
    if orders == [] then []
    else (if orders[0].voucherId == v then [orders[0]] else []) + Only(orders[1..], v)
  }

  function Others(orders: seq<VoucherOrder>, v: VoucherId): (r: seq<VoucherOrder>)
    ensures forall o | o in r :: o.voucherId != v && o in orders
    ensures |r| <= |orders| && (orders != [] && orders[0].voucherId == v ==> |r| < |orders|)
  {
    if orders == [] then []
    else (if orders[0].voucherId == v then [] else [orders[0]]) + Others(orders[1..], v)
  }

  function CreateGrouped(db: Db, orders: seq<VoucherOrder>, now: Time): Result<Db, CreateError>
    decreases |orders|
  {
    if orders == [] then Ok(db)
    else
      var v := orders[0].voucherId;
      match CreateGroup(db, v, Only(orders, v), now)
      case Err(e) => Err(e)
      case Ok(db1) => CreateGrouped(db1, Others(orders, v), now)
  }

  // ---- Orders of different vouchers do not touch each other ----

  predicate Same(a: Result<Db, CreateError>, b: Result<Db, CreateError>) {
    a == b || (a.Err? && b.Err?)
  }

  lemma SelectIsTop(book: Book, u: UserId, v: VoucherId, id: OrderId)
    ensures SelectOrderId(book, u, v) == Some(id) <==> Top(book, Candidates(book, u, v), id)
  {
    match SelectOrderId(book, u, v)
    case None =>
    case Some(top) =>
      assert Top(book, Candidates(book, u, v), id) ==> top == id || (Above(book, id, top) && Above(book, top, id));
  }

  // ---- The newest order, in terms of status and time of creation ----

  /** The selected order is an active one of the user and voucher, none of which was created later; there is
      one unless they have no active order. */
  lemma SelectsNewest(book: Book, u: UserId, v: VoucherId)
    ensures SelectOrderId(book, u, v).None?
       <==> forall x | x in book.orders ::
              book.orders[x].userId != u || book.orders[x].voucherId != v || book.orders[x].status == 4
    ensures SelectOrderId(book, u, v).Some? ==>
              var o := SelectOrderId(book, u, v).value;
              && o in book.orders && book.orders[o].userId == u && book.orders[o].voucherId == v
              && book.orders[o].status != 4
              && forall x | x in book.orders && book.orders[x].userId == u && book.orders[x].voucherId == v
                            && book.orders[x].status != 4 && x in book.createdAt && o in book.createdAt ::
                book.createdAt[x] <= book.createdAt[o] && (book.createdAt[x] == book.createdAt[o] ==> x <= o)
  {
    var r := SelectOrderId(book, u, v);
    forall x | x in book.orders && book.orders[x].userId == u && book.orders[x].voucherId == v
        && book.orders[x].status != 4
      ensures r.Some? && (x == r.value || Above(book, r.value, x))
    {
      assert x in Candidates(book, u, v);
    }
  }

  /** An order that was created later than all other active ones of its user and voucher is selected. */
  lemma LatestIsSelected(book: Book, o: OrderId)
    requires o in book.orders && o in book.createdAt && book.orders[o].status != 4
    requires forall x | x in book.orders && x != o && book.orders[x].userId == book.orders[o].userId
                        && book.orders[x].voucherId == book.orders[o].voucherId && book.orders[x].status != 4 ::
               x in book.createdAt && book.createdAt[x] < book.createdAt[o]
    ensures SelectOrderId(book, book.orders[o].userId, book.orders[o].voucherId) == Some(o)
  {
    SelectsNewest(book, book.orders[o].userId, book.orders[o].voucherId);
  }

  /** So is an order that is inserted at a later time than theirs. */
  lemma InsertedLaterIsSelected(book: Book, o: VoucherOrder, now: Time)
    requires o.id !in book.orders
    requires forall x | x in book.orders && book.orders[x].userId == o.userId
                        && book.orders[x].voucherId == o.voucherId && book.orders[x].status != 4 ::
               x in book.createdAt && book.createdAt[x] < now
    ensures SelectOrderId(InsertIgnore(book, o, now), o.userId, o.voucherId) == Some(o.id)
  {
    hide SelectOrderId;
    LatestIsSelected(InsertIgnore(book, o, now), o.id);
  }

  /** A stored order that is delivered again is let pass if it is active and none of its user and voucher was
      created later, and refused if one was. */
  lemma RedeliveryPassesNewest(book: Book, o: VoucherOrder)
    requires o.id in book.orders && o.id in book.createdAt && book.orders[o.id].status != 4
    requires book.orders[o.id].userId == o.userId && book.orders[o.id].voucherId == o.voucherId
    requires forall x | x in book.orders :: x in book.createdAt
    ensures Verify(book, o).None?
       <==> forall x | x in book.orders && book.orders[x].userId == o.userId
                       && book.orders[x].voucherId == o.voucherId && book.orders[x].status != 4 ::
              book.createdAt[x] < book.createdAt[o.id] || (book.createdAt[x] == book.createdAt[o.id] && x <= o.id)
    ensures Verify(book, o).Some? ==>
              && Verify(book, o).value.OrderIdConflict? && Verify(book, o).value.orderId == o.id
              && var x := Verify(book, o).value.existing;
              x in book.orders && book.createdAt[x] >= book.createdAt[o.id]
  {
    SelectsNewest(book, o.userId, o.voucherId);
    hide SelectOrderId;
  }

  /** Of two active orders the later one is selected, and the earlier one is a conflict when it is delivered
      again. */
  lemma LaterOfTwo()
    ensures var row := OrderRow(1, 7, UNPAID);
            var book := Book(map[10 := row, 11 := row], map[10 := 100, 11 := 200]);
            && SelectOrderId(book, 1, 7) == Some(11) && Verify(book, VoucherOrder(11, 1, 7)) == None
            && Verify(book, VoucherOrder(10, 1, 7)) == Some(OrderIdConflict(10, 11))
  {
    hide SelectOrderId;
    var row := OrderRow(1, 7, UNPAID);
    LatestIsSelected(Book(map[10 := row, 11 := row], map[10 := 100, 11 := 200]), 11);
  }

  lemma InsertOther(book: Book, a: VoucherOrder, now: Time, u: UserId, v: VoucherId)
    requires a.voucherId != v
    ensures SelectOrderId(InsertIgnore(book, a, now), u, v) == SelectOrderId(book, u, v)
  {
    var book1 := InsertIgnore(book, a, now);
    assert Candidates(book1, u, v) == Candidates(book, u, v);
    var r := SelectOrderId(book, u, v);
    if r.Some? {
      SelectIsTop(book1, u, v, r.value);
    }
  }

  lemma CreateSingle(db: Db, o: VoucherOrder, now: Time)
    ensures CreateEach(db, [o], now) == CreateOne(db, o, now)
  {
    assert [o][1..] == [];
    match CreateOne(db, o, now)
    case Err(_) =>
    case Ok(db1) => assert CreateEach(db1, [], now) == Ok(db1);
  }

  lemma CreateTwo(db: Db, a: VoucherOrder, b: VoucherOrder, now: Time)
    ensures CreateEach(db, [a, b], now)
         == match CreateOne(db, a, now) case Err(e) => Err(e) case Ok(db1) => CreateOne(db1, b, now)
  {
    assert [a, b][1..] == [b];
    match CreateOne(db, a, now)
    case Err(_) =>
    case Ok(db1) => CreateSingle(db1, b, now);
  }

  // A row of another voucher never answers for this one.
  lemma WrongVoucher(db: Db, a: VoucherOrder, b: VoucherOrder, now: Time)
    requires a.id == b.id && a.voucherId != b.voucherId
    ensures CreateOne(db, a, now).Err? || CreateOne(CreateOne(db, a, now).value, b, now).Err?
  {
    if CreateOne(db, a, now).Ok? {
      var db1 := CreateOne(db, a, now).value;
      assert db1.book.orders[b.id].voucherId == a.voucherId;
      assert b.id !in Candidates(db1.book, b.userId, b.voucherId);
    }
  }

  lemma InsertsCommute(book: Book, a: VoucherOrder, b: VoucherOrder, now: Time)
    requires a.id != b.id
    ensures InsertIgnore(InsertIgnore(book, a, now), b, now) == InsertIgnore(InsertIgnore(book, b, now), a, now)
  {
    var x, y := OrderRow(a.userId, a.voucherId, UNPAID), OrderRow(b.userId, b.voucherId, UNPAID);
    assert book.orders[a.id := x][b.id := y] == book.orders[b.id := y][a.id := x];
    assert book.createdAt[a.id := now][b.id := now] == book.createdAt[b.id := now][a.id := now];
  }

  lemma Swap(db: Db, a: VoucherOrder, b: VoucherOrder, now: Time)
    requires a.voucherId != b.voucherId
    ensures Same(CreateEach(db, [a, b], now), CreateEach(db, [b, a], now))
  {
    hide SelectOrderId;
    CreateTwo(db, a, b, now);
    CreateTwo(db, b, a, now);
    if a.id == b.id {
      WrongVoucher(db, a, b, now);
      WrongVoucher(db, b, a, now);
    } else {
      InsertOther(db.book, a, now, b.userId, b.voucherId);
      InsertOther(db.book, b, now, a.userId, a.voucherId);
      InsertsCommute(db.book, a, b, now);
      if a.voucherId in db.stock && b.voucherId in db.stock {
        StocksCommute(db.stock, a.voucherId, b.voucherId);
      }
    }
  }

  lemma StocksCommute(stock: map<VoucherId, int>, v: VoucherId, w: VoucherId)
    requires v != w && v in stock && w in stock
    ensures stock[v := stock[v] - 1][w := stock[w] - 1] == stock[w := stock[w] - 1][v := stock[v] - 1]
  {
  }

  lemma {:induction false} CreateConcat(db: Db, a: seq<VoucherOrder>, b: seq<VoucherOrder>, now: Time)
    ensures CreateEach(db, a + b, now)
         == match CreateEach(db, a, now) case Err(e) => Err(e) case Ok(db1) => CreateEach(db1, b, now)
    decreases |a|
  {
    if a == [] {
      assert a + b == b;
    } else {
      assert (a + b)[1..] == a[1..] + b;
      match CreateOne(db, a[0], now)
      case Err(_) =>
      case Ok(db1) => CreateConcat(db1, a[1..], b, now);
    }
  }

  lemma {:induction false} MovePast(db: Db, h: VoucherOrder, block: seq<VoucherOrder>, rest: seq<VoucherOrder>, now: Time)
    requires forall o | o in block :: o.voucherId != h.voucherId
    ensures Same(CreateEach(db, [h] + block + rest, now), CreateEach(db, block + [h] + rest, now))
    decreases |block|
  {
    if block == [] {
      assert [h] + block + rest == block + [h] + rest;
    } else {
      var b, tail := block[0], block[1..];
      assert [h] + block + rest == [h, b] + (tail + rest);
      assert [b] + ([h] + tail + rest) == [b, h] + (tail + rest);
      assert block + [h] + rest == [b] + (tail + [h] + rest);
      Swap(db, h, b, now);
      CreateConcat(db, [h, b], tail + rest, now);
      CreateConcat(db, [b, h], tail + rest, now);
      CreateConcat(db, [b], [h] + tail + rest, now);
      CreateConcat(db, [b], tail + [h] + rest, now);
      if CreateEach(db, [b], now).Ok? {
        MovePast(CreateEach(db, [b], now).value, h, tail, rest, now);
      }
    }
  }

  lemma FrontSplit(orders: seq<VoucherOrder>, v: VoucherId)
    requires orders != []
    ensures var h, only, others := orders[0], Only(orders[1..], v), Others(orders[1..], v);
            && orders == [h] + orders[1..] && [h] + only + others == [h] + (only + others)
            && Only(orders, v) + Others(orders, v)
               == if h.voucherId == v then [h] + (only + others) else only + [h] + others
  {
    HeadSplit(orders, v);
    hide Only, Others;
    Regroup(orders[0], Only(orders[1..], v), Others(orders[1..], v));
    assert orders == [orders[0]] + orders[1..];
  }

  lemma HeadSplit(orders: seq<VoucherOrder>, v: VoucherId)
    requires orders != []
    ensures Only(orders, v)
         == if orders[0].voucherId == v then [orders[0]] + Only(orders[1..], v) else Only(orders[1..], v)
    ensures Others(orders, v)
         == if orders[0].voucherId == v then Others(orders[1..], v) else [orders[0]] + Others(orders[1..], v)
  {
  }

  lemma Regroup<T>(h: T, only: seq<T>, others: seq<T>)
    ensures [h] + only + others == [h] + (only + others) && only + ([h] + others) == only + [h] + others
  {
  }

  /** Taking one voucher's orders first makes no difference to what becomes of the batch. */
  lemma {:induction false} OneVoucherFirst(db: Db, orders: seq<VoucherOrder>, v: VoucherId, now: Time)
    ensures Same(CreateEach(db, orders, now), CreateEach(db, Only(orders, v) + Others(orders, v), now))
    decreases |orders|
  {
    if orders == [] {
      assert Only(orders, v) + Others(orders, v) == orders;
    } else {
      hide CreateOne, CreateEach, Only, Others;
      var h, tail := orders[0], orders[1..];
      var only, others := Only(tail, v), Others(tail, v);
      FrontSplit(orders, v);
      CreateConcat(db, [h], tail, now);
      CreateConcat(db, [h], only + others, now);
      if CreateEach(db, [h], now).Ok? {
        OneVoucherFirst(CreateEach(db, [h], now).value, tail, v, now);
      }
      if h.voucherId != v {
        MovePast(db, h, only, others, now);
      }
    }
  }

  // ---- One voucher's group against its orders one by one ----

  // Every order that is already there when its turn comes is the newest of its user and voucher.
  predicate EachNewest(book: Book, orders: seq<VoucherOrder>, now: Time)
    decreases |orders|
  {
    orders == []
    || ((orders[0].id in book.orders ==> Newest(book, orders[0]))
        && EachNewest(InsertIgnore(book, orders[0], now), orders[1..], now))
  }

  function Taken(stock: map<VoucherId, int>, v: VoucherId, n: nat): map<VoucherId, int>
    requires n == 0 || v in stock
  {
    if n == 0 then stock else stock[v := stock[v] - n]
  }

  lemma {:induction false} EachOfGroup(db: Db, v: VoucherId, orders: seq<VoucherOrder>, now: Time)
    requires forall o | o in orders :: o.voucherId == v
    ensures var n := Inserted(db.book, orders, now);
            if EachNewest(db.book, orders, now) && (n == 0 || Enough(db.stock, v, n))
            then CreateEach(db, orders, now) == Ok(Db(InsertOrders(db.book, orders, now), Taken(db.stock, v, n)))
            else CreateEach(db, orders, now).Err?
    decreases |orders|
  {
    hide SelectOrderId;
    if orders != [] {
      match CreateOne(db, orders[0], now)
      case Err(_) =>
      case Ok(db1) =>
        EachOfGroup(db1, v, orders[1..], now);
        if orders[0].id !in db.book.orders {
          TakenTwice(db.stock, v, Inserted(db1.book, orders[1..], now));
        }
    }
  }

  lemma TakenTwice(stock: map<VoucherId, int>, v: VoucherId, n: nat)
    requires v in stock
    ensures Taken(Taken(stock, v, 1), v, n) == Taken(stock, v, n + 1)
  {
  }

  lemma {:induction false} AllFresh(book: Book, orders: seq<VoucherOrder>, now: Time)
    requires Inserted(book, orders, now) == |orders|
    ensures EachNewest(book, orders, now)
    decreases |orders|
  {
    if orders != [] {
      AllFresh(InsertIgnore(book, orders[0], now), orders[1..], now);
    }
  }

  lemma NewestBefore(book: Book, a: VoucherOrder, now: Time, o: VoucherOrder)
    requires o.id in book.orders && Newest(InsertIgnore(book, a, now), o)
    ensures Newest(book, o)
  {
    var book1 := InsertIgnore(book, a, now);
    SelectIsTop(book1, o.userId, o.voucherId, o.id);
    SelectIsTop(book, o.userId, o.voucherId, o.id);
    assert forall x | x in Candidates(book, o.userId, o.voucherId) :: x in Candidates(book1, o.userId, o.voucherId);
  }

  lemma {:induction false} NewestAllAlong(book: Book, orders: seq<VoucherOrder>, now: Time, o: VoucherOrder)
    requires o.id in book.orders && Newest(InsertOrders(book, orders, now), o)
    ensures Newest(book, o)
    decreases |orders|
  {
    hide Newest;
    if orders != [] {
      NewestAllAlong(InsertIgnore(book, orders[0], now), orders[1..], now, o);
      NewestBefore(book, orders[0], now, o);
    }
  }

  lemma {:induction false} VerifiedAfterwards(book: Book, orders: seq<VoucherOrder>, now: Time)
    requires forall i | 0 <= i < |orders| :: Newest(InsertOrders(book, orders, now), orders[i])
    ensures EachNewest(book, orders, now)
    decreases |orders|
  {
    hide Newest;
    if orders != [] {
      if orders[0].id in book.orders {
        NewestAllAlong(book, orders, now, orders[0]);
      }
      VerifiedAfterwards(InsertIgnore(book, orders[0], now), orders[1..], now);
    }
  }

  // ---- Which batches the grouped form rejects ----

  predicate Rival(book: Book, r: OrderId, o: VoucherOrder) {
    r in Candidates(book, o.userId, o.voucherId) && r != o.id && Above(book, r, o.id)
  }

  // Another active order of the same user and voucher is newer.
  predicate Outranked(book: Book, o: VoucherOrder) {
    exists r | r in book.orders :: Rival(book, r, o)
  }

  // Some order is already stored, or comes twice.
  predicate Redelivery(book: Book, group: seq<VoucherOrder>) {
    exists i | 0 <= i < |group| :: group[i].id in book.orders || exists j | 0 <= j < i :: group[j].id == group[i].id
  }

  predicate MixedGroup(book: Book, group: seq<VoucherOrder>, now: Time) {
    Redelivery(book, group) && exists i | 0 <= i < |group| :: Outranked(InsertOrders(book, group, now), group[i])
  }

  // For one voucher, the batch holds both a redelivered order and one with a newer active rival.
  ghost predicate Mixed(book: Book, orders: seq<VoucherOrder>, now: Time) {
    exists v :: MixedGroup(book, Only(orders, v), now)
  }

  lemma RedeliveryLater(book: Book, group: seq<VoucherOrder>, now: Time)
    requires group != [] && group[0].id !in book.orders && Redelivery(book, group)
    ensures Redelivery(InsertIgnore(book, group[0], now), group[1..])
  {
    var rest := group[1..];
    var i :| 0 <= i < |group| && (group[i].id in book.orders || exists j | 0 <= j < i :: group[j].id == group[i].id);
    assert rest[i - 1] == group[i];
    if group[i].id !in book.orders {
      var j :| 0 <= j < i && group[j].id == group[i].id;
      if j > 0 {
        assert rest[j - 1].id == rest[i - 1].id;
      }
    }
  }

  lemma RedeliveryEarlier(book: Book, group: seq<VoucherOrder>, now: Time)
    requires group != [] && Redelivery(InsertIgnore(book, group[0], now), group[1..])
    ensures Redelivery(book, group)
  {
    var book1, rest := InsertIgnore(book, group[0], now), group[1..];
    var i :| 0 <= i < |rest| && (rest[i].id in book1.orders || exists j | 0 <= j < i :: rest[j].id == rest[i].id);
    assert rest[i] == group[i + 1];
    if rest[i].id !in book1.orders {
      var j :| 0 <= j < i && rest[j].id == rest[i].id;
      assert group[j + 1].id == group[i + 1].id;
    } else if rest[i].id !in book.orders {
      assert group[0].id == group[i + 1].id;
    }
  }

  lemma {:induction false} CountsRedelivery(book: Book, group: seq<VoucherOrder>, now: Time)
    ensures Inserted(book, group, now) < |group| <==> Redelivery(book, group)
    decreases |group|
  {
    if group != [] {
      var book1, rest := InsertIgnore(book, group[0], now), group[1..];
      CountsRedelivery(book1, rest, now);
      if group[0].id !in book.orders {
        if Redelivery(book, group) {
          RedeliveryLater(book, group, now);
        }
        if Redelivery(book1, rest) {
          RedeliveryEarlier(book, group, now);
        }
      }
    }
  }

  // An order that can be selected is selected unless it is outranked.
  lemma NewestOrOutranked(book: Book, o: VoucherOrder)
    requires o.id in Candidates(book, o.userId, o.voucherId)
    ensures Newest(book, o) <==> !Outranked(book, o)
  {
    SelectIsTop(book, o.userId, o.voucherId, o.id);
    var c := Candidates(book, o.userId, o.voucherId);
    assert forall x, y :: Above(book, x, y) ==> !Above(book, y, x);
    match SelectOrderId(book, o.userId, o.voucherId)
    case None =>
    case Some(top) =>
      assert top != o.id ==> Rival(book, top, o);
  }

  // ---- What a created batch leaves behind ----

  predicate Placed(book: Book, o: VoucherOrder) {
    o.id in Candidates(book, o.userId, o.voucherId)
  }

  ghost predicate Keeps(book: Book, book': Book) {
    forall id | id in book.orders :: id in book'.orders && book'.orders[id] == book.orders[id]
                                     && CreatedAt(book', id) == CreatedAt(book, id)
  }

  function NewRows(book: Book, book': Book, v: VoucherId): set<OrderId> {
    set id | id in book'.orders && id !in book.orders && book'.orders[id].voucherId == v
  }

  lemma OneRight(db: Db, o: VoucherOrder, now: Time)
    requires CreateOne(db, o, now).Ok?
    ensures var db' := CreateOne(db, o, now).value;
            && db'.book == InsertIgnore(db.book, o, now) && Keeps(db.book, db'.book) && Placed(db'.book, o)
  {
  }

  lemma {:induction false} EachRight(db: Db, orders: seq<VoucherOrder>, now: Time)
    requires CreateEach(db, orders, now).Ok?
    ensures var book := CreateEach(db, orders, now).value.book;
            && book == InsertOrders(db.book, orders, now) && Keeps(db.book, book)
            && (forall i | 0 <= i < |orders| :: Placed(book, orders[i]))
    decreases |orders|
  {
    hide CreateOne, InsertIgnore, SelectOrderId;
    if orders != [] {
      OneRight(db, orders[0], now);
      var db1 := CreateOne(db, orders[0], now).value;
      EachRight(db1, orders[1..], now);
      var book := CreateEach(db, orders, now).value.book;
      forall i | 0 <= i < |orders| ensures Placed(book, orders[i]) {
        if i > 0 {
          assert orders[i] == orders[1..][i - 1];
        }
      }
    }
  }

  /** One voucher's group: what the grouped form creates is what one-by-one creation creates, and it
      rejects what that accepts exactly if the group is mixed. */
  lemma GroupAgainstEach(db: Db, v: VoucherId, group: seq<VoucherOrder>, now: Time)
    requires forall o | o in group :: o.voucherId == v
    ensures CreateGroup(db, v, group, now).Ok? ==> CreateEach(db, group, now) == CreateGroup(db, v, group, now)
    ensures CreateEach(db, group, now).Ok? ==> (CreateGroup(db, v, group, now).Ok? <==> !MixedGroup(db.book, group, now))
  {
    hide Newest, Outranked, Redelivery;
    var book, n := InsertOrders(db.book, group, now), Inserted(db.book, group, now);
    EachOfGroup(db, v, group, now);
    CountsRedelivery(db.book, group, now);
    if n == |group| {
      AllFresh(db.book, group, now);
    } else if forall i | 0 <= i < |group| :: Newest(book, group[i]) {
      VerifiedAfterwards(db.book, group, now);
    }
    if CreateEach(db, group, now).Ok? {
      EachRight(db, group, now);
      forall i | 0 <= i < |group| ensures Newest(book, group[i]) <==> !Outranked(book, group[i]) {
        assert Placed(book, group[i]);
        NewestOrOutranked(book, group[i]);
      }
    }
  }

  // ---- The whole batch ----

  lemma {:induction false} InsertsSwap(book: Book, a: VoucherOrder, group: seq<VoucherOrder>, now: Time)
    requires forall o | o in group :: o.id != a.id
    ensures InsertOrders(InsertIgnore(book, a, now), group, now) == InsertIgnore(InsertOrders(book, group, now), a, now)
    decreases |group|
  {
    if group != [] {
      InsertsCommute(book, a, group[0], now);
      InsertsSwap(InsertIgnore(book, group[0], now), a, group[1..], now);
    }
  }

  lemma OutrankedElsewhere(book: Book, a: VoucherOrder, now: Time, o: VoucherOrder)
    requires a.voucherId != o.voucherId && a.id != o.id
    ensures Outranked(InsertIgnore(book, a, now), o) <==> Outranked(book, o)
  {
    var book1 := InsertIgnore(book, a, now);
    assert Candidates(book1, o.userId, o.voucherId) == Candidates(book, o.userId, o.voucherId);
    assert forall r | r in book.orders :: Rival(book, r, o) <==> Rival(book1, r, o);
    assert Rival(book1, a.id, o) ==> a.id in book.orders;
  }

  lemma MixedElsewhere(book: Book, a: VoucherOrder, group: seq<VoucherOrder>, now: Time)
    requires forall o | o in group :: o.voucherId != a.voucherId && o.id != a.id
    ensures MixedGroup(InsertIgnore(book, a, now), group, now) <==> MixedGroup(book, group, now)
  {
    hide Outranked, InsertOrders;
    InsertsSwap(book, a, group, now);
    forall i | 0 <= i < |group|
      ensures Outranked(InsertOrders(InsertIgnore(book, a, now), group, now), group[i])
          <==> Outranked(InsertOrders(book, group, now), group[i])
    {
      OutrankedElsewhere(InsertOrders(book, group, now), a, now, group[i]);
    }
    assert forall i | 0 <= i < |group| ::
        group[i].id in InsertIgnore(book, a, now).orders <==> group[i].id in book.orders;
  }

  lemma {:induction false} MixedApart(book: Book, done: seq<VoucherOrder>, group: seq<VoucherOrder>, now: Time)
    requires forall d, o | d in done && o in group :: o.voucherId != d.voucherId && o.id != d.id
    ensures MixedGroup(InsertOrders(book, done, now), group, now) <==> MixedGroup(book, group, now)
    decreases |done|
  {
    hide MixedGroup;
    if done != [] {
      MixedElsewhere(book, done[0], group, now);
      MixedApart(InsertIgnore(book, done[0], now), done[1..], group, now);
    }
  }

  lemma {:induction false} OnlyOfOthers(orders: seq<VoucherOrder>, v: VoucherId, w: VoucherId)
    ensures w != v ==> Only(Others(orders, v), w) == Only(orders, w)
    ensures Only(Others(orders, v), v) == []
  {
    if orders != [] {
      OnlyOfOthers(orders[1..], v, w);
      var rest := Others(orders[1..], v);
      assert [] + rest == rest && ([orders[0]] + rest)[1..] == rest;
    }
  }

  // Orders created one after the other never share an id across vouchers.
  lemma IdsApart(db: Db, done: seq<VoucherOrder>, rest: seq<VoucherOrder>, now: Time, d: VoucherOrder, o: VoucherOrder)
    requires CreateEach(db, done, now).Ok? && CreateEach(CreateEach(db, done, now).value, rest, now).Ok?
    requires d in done && o in rest && d.voucherId != o.voucherId
    ensures d.id != o.id
  {
    var db1 := CreateEach(db, done, now).value;
    EachRight(db, done, now);
    EachRight(db1, rest, now);
    assert Placed(db1.book, d) && Placed(CreateEach(db1, rest, now).value.book, o);
  }

  lemma MixedSplit(db: Db, orders: seq<VoucherOrder>, v: VoucherId, now: Time)
    requires CreateEach(db, Only(orders, v), now).Ok?
    requires CreateEach(CreateEach(db, Only(orders, v), now).value, Others(orders, v), now).Ok?
    ensures var book1 := CreateEach(db, Only(orders, v), now).value.book;
            Mixed(db.book, orders, now)
            <==> MixedGroup(db.book, Only(orders, v), now) || Mixed(book1, Others(orders, v), now)
  {
    var only, others := Only(orders, v), Others(orders, v);
    var book1 := CreateEach(db, only, now).value.book;
    EachRight(db, only, now);
    forall w ensures MixedGroup(book1, Only(others, w), now) <==> w != v && MixedGroup(db.book, Only(orders, w), now) {
      OnlyOfOthers(orders, v, w);
      if w != v {
        forall d, o | d in only && o in Only(others, w) ensures o.voucherId != d.voucherId && o.id != d.id {
          OnlyAreMembers(others, w, o);
          IdsApart(db, only, others, now, d, o);
        }
        MixedApart(db.book, only, Only(orders, w), now);
      }
    }
  }

  lemma {:induction false} OnlyAreMembers(orders: seq<VoucherOrder>, v: VoucherId, o: VoucherOrder)
    requires o in Only(orders, v)
    ensures o in orders
  {
    if !(o == orders[0]) {
      OnlyAreMembers(orders[1..], v, o);
    }
  }

  /** A batch that is created is created as if its orders had come one by one; and a batch whose
      orders would all be created one by one is created, unless it is mixed. */
  lemma {:induction false} GroupedAgainstEach(db: Db, orders: seq<VoucherOrder>, now: Time)
    ensures CreateGrouped(db, orders, now).Ok? ==> CreateEach(db, orders, now) == CreateGrouped(db, orders, now)
    ensures CreateEach(db, orders, now).Ok? ==> (CreateGrouped(db, orders, now).Ok? <==> !Mixed(db.book, orders, now))
    decreases |orders|
  {
    hide CreateEach, CreateGroup, MixedGroup, Mixed, Only, Others;
    if orders == [] {
      NoneMixed(db, now);
    } else {
      var v := orders[0].voucherId;
      var only, others := Only(orders, v), Others(orders, v);
      OneVoucherFirst(db, orders, v, now);
      CreateConcat(db, only, others, now);
      GroupAgainstEach(db, v, only, now);
      if CreateEach(db, only, now).Ok? {
        var db1 := CreateEach(db, only, now).value;
        GroupedAgainstEach(db1, others, now);
        if CreateEach(db1, others, now).Ok? {
          MixedSplit(db, orders, v, now);
        }
      }
    }
  }

  lemma NoneMixed(db: Db, now: Time)
    ensures CreateEach(db, [], now) == Ok(db) && !Mixed(db.book, [], now)
  {
    assert forall v :: Only([], v) == [];
  }

  // ---- Consequences ----

  // At most one active order of a user and voucher, counting both the stored and the new ones.
  ghost predicate Sole(book: Book, orders: seq<VoucherOrder>) {
    && (forall i, id | 0 <= i < |orders| && id in Candidates(book, orders[i].userId, orders[i].voucherId) ::
          id == orders[i].id)
    && (forall i, j | 0 <= i < |orders| && 0 <= j < |orders| && orders[i].userId == orders[j].userId
                      && orders[i].voucherId == orders[j].voucherId :: orders[i].id == orders[j].id)
  }

  lemma {:induction false} RowsComeFromOrders(book: Book, orders: seq<VoucherOrder>, now: Time, id: OrderId)
    requires id in InsertOrders(book, orders, now).orders
    ensures (id in book.orders && InsertOrders(book, orders, now).orders[id] == book.orders[id])
         || (id !in book.orders && exists o | o in orders ::
               o.id == id && InsertOrders(book, orders, now).orders[id] == OrderRow(o.userId, o.voucherId, UNPAID))
    decreases |orders|
  {
    if orders != [] {
      RowsComeFromOrders(InsertIgnore(book, orders[0], now), orders[1..], now, id);
    }
  }

  lemma SoleHasNoRival(book: Book, orders: seq<VoucherOrder>, v: VoucherId, now: Time, o: VoucherOrder, r: OrderId)
    requires Sole(book, orders) && o in Only(orders, v)
    ensures !Rival(InsertOrders(book, Only(orders, v), now), r, o)
  {
    var group := Only(orders, v);
    var book1 := InsertOrders(book, group, now);
    OnlyAreMembers(orders, v, o);
    if r in Candidates(book1, o.userId, o.voucherId) {
      RowsComeFromOrders(book, group, now, r);
      if r in book.orders {
        assert r in Candidates(book, o.userId, o.voucherId);
      } else {
        var o' :| o' in group && o'.id == r && book1.orders[r] == OrderRow(o'.userId, o'.voucherId, UNPAID);
        OnlyAreMembers(orders, v, o');
      }
    }
  }

  lemma SoleIsNotMixed(book: Book, orders: seq<VoucherOrder>, now: Time)
    requires Sole(book, orders)
    ensures !Mixed(book, orders, now)
  {
    hide Sole, Rival, InsertOrders;
    forall v ensures !MixedGroup(book, Only(orders, v), now) {
      var group := Only(orders, v);
      forall i, r | 0 <= i < |group| ensures !Rival(InsertOrders(book, group, now), r, group[i]) {
        SoleHasNoRival(book, orders, v, now, group[i], r);
      }
    }
  }

  /** With at most one active order a user and voucher, the batch and its orders one by one succeed
      together and end in the same table and stocks. */
  lemma BatchIsSequential(db: Db, orders: seq<VoucherOrder>, now: Time)
    requires Sole(db.book, orders)
    ensures Same(CreateGrouped(db, orders, now), CreateEach(db, orders, now))
  {
    SoleIsNotMixed(db.book, orders, now);
    GroupedAgainstEach(db, orders, now);
  }

  /** A created batch: each order is an active row with its own id, user and voucher, the rows that
      were there are untouched, and each stock fell by the number of rows that are new. */
  lemma BatchRight(db: Db, orders: seq<VoucherOrder>, now: Time)
    requires CreateGrouped(db, orders, now).Ok?
    ensures var db' := CreateGrouped(db, orders, now).value;
            && (forall i | 0 <= i < |orders| :: Placed(db'.book, orders[i]))
            && Keeps(db.book, db'.book) && db'.book == InsertOrders(db.book, orders, now)
            && db'.stock.Keys == db.stock.Keys
            && (forall v | v in db.stock :: db.stock[v] - db'.stock[v] == |NewRows(db.book, db'.book, v)|)
  {
    GroupedAgainstEach(db, orders, now);
    EachRight(db, orders, now);
    StockFalls(db, orders, now);
  }

  predicate DistinctIds(orders: seq<VoucherOrder>) {
    forall i, j | 0 <= i < j < |orders| :: orders[i].id != orders[j].id
  }

  /** Where a batch is created, an order that is new is unpaid and of the time of its creation. */
  lemma NewOrderIsUnpaid(db: Db, orders: seq<VoucherOrder>, now: Time, o: VoucherOrder)
    requires CreateGrouped(db, orders, now).Ok? && o in orders && DistinctIds(orders) && o.id !in db.book.orders
    ensures var book := CreateGrouped(db, orders, now).value.book;
            && o.id in book.orders && book.orders[o.id].userId == o.userId && book.orders[o.id].voucherId == o.voucherId
            && book.orders[o.id].status == 1 && o.id in book.createdAt && book.createdAt[o.id] == now
  {
    BatchRight(db, orders, now);
    hide CreateGrouped;
    InsertedUnpaid(db.book, orders, now, o);
  }

  lemma {:induction false} InsertedUnpaid(book: Book, orders: seq<VoucherOrder>, now: Time, o: VoucherOrder)
    requires o in orders && DistinctIds(orders) && o.id !in book.orders
    ensures var book' := InsertOrders(book, orders, now);
            && o.id in book'.orders && book'.orders[o.id] == OrderRow(o.userId, o.voucherId, 1)
            && o.id in book'.createdAt && book'.createdAt[o.id] == now
    decreases |orders|
  {
    var first, rest := orders[0], orders[1..];
    var book1 := InsertIgnore(book, first, now);
    if o == first {
      KeptUnpaid(book1, rest, now, o.id);
    } else {
      assert o in rest && first.id != o.id;
      assert DistinctIds(rest) by {
        assert forall i | 0 <= i < |rest| :: rest[i] == orders[i + 1];
      }
      InsertedUnpaid(book1, rest, now, o);
    }
  }

  lemma {:induction false} KeptUnpaid(book: Book, orders: seq<VoucherOrder>, now: Time, id: OrderId)
    requires id in book.orders && id in book.createdAt
    ensures var book' := InsertOrders(book, orders, now);
            && id in book'.orders && book'.orders[id] == book.orders[id]
            && id in book'.createdAt && book'.createdAt[id] == book.createdAt[id]
    decreases |orders|
  {
    if orders != [] {
      KeptUnpaid(InsertIgnore(book, orders[0], now), orders[1..], now, id);
    }
  }

  lemma {:induction false} StockFalls(db: Db, orders: seq<VoucherOrder>, now: Time)
    requires CreateEach(db, orders, now).Ok?
    ensures var db' := CreateEach(db, orders, now).value;
            && db'.stock.Keys == db.stock.Keys
            && forall v | v in db.stock :: db.stock[v] - db'.stock[v] == |NewRows(db.book, db'.book, v)|
    decreases |orders|
  {
    hide SelectOrderId;
    var db' := CreateEach(db, orders, now).value;
    if orders == [] {
      assert forall v :: NewRows(db.book, db.book, v) == {};
    } else {
      var o := orders[0];
      var db1 := CreateOne(db, o, now).value;
      StockFalls(db1, orders[1..], now);
      EachRight(db1, orders[1..], now);
      forall v | v in db.stock ensures db.stock[v] - db'.stock[v] == |NewRows(db.book, db'.book, v)| {
        var first, later := NewRows(db.book, db1.book, v), NewRows(db1.book, db'.book, v);
        assert first == if o.id !in db.book.orders && o.voucherId == v then {o.id} else {};
        assert NewRows(db.book, db'.book, v) == first + later;
        assert first * later == {};
      }
    }
  }

  /** The batch is not always its orders one by one: order 10 comes again, together with two orders of
      a user who has no order yet. */
  lemma MixedBatchIsRejected(now: Time)
    ensures var db := Db(Book(map[10 := OrderRow(1, 7, UNPAID)], map[10 := now]), map[7 := 5]);
            var orders := [VoucherOrder(10, 1, 7), VoucherOrder(20, 2, 7), VoucherOrder(21, 2, 7)];
            CreateEach(db, orders, now).Ok? && CreateGrouped(db, orders, now).Err? && Mixed(db.book, orders, now)
  {
    hide CreateEach, CreateOne, InsertOrders, Only;
    var db := Db(Book(map[10 := OrderRow(1, 7, UNPAID)], map[10 := now]), map[7 := 5]);
    var a, b, c := VoucherOrder(10, 1, 7), VoucherOrder(20, 2, 7), VoucherOrder(21, 2, 7);
    var orders := [a, b, c];
    AllOfOneVoucher(orders, 7);
    OneByOneAccepts(db, a, b, c, now);
    EachRight(db, orders, now);
    GroupedAgainstEach(db, orders, now);
    var book := InsertOrders(db.book, orders, now);
    assert Placed(book, orders[0]) && Placed(book, orders[1]) && Placed(book, orders[2]);
    assert orders[0].id in db.book.orders && Redelivery(db.book, orders);
    assert Rival(book, 21, b) by {
      assert CreateEach(db, orders, now).value.book.createdAt == map[10 := now, 20 := now, 21 := now];
    }
    assert orders[1] == b && Outranked(book, b);
    assert MixedGroup(db.book, Only(orders, 7), now);
  }

  lemma {:induction false} AllOfOneVoucher(orders: seq<VoucherOrder>, v: VoucherId)
    requires forall o | o in orders :: o.voucherId == v
    ensures Only(orders, v) == orders
  {
    if orders != [] {
      AllOfOneVoucher(orders[1..], v);
    }
  }

  lemma OneByOneAccepts(db: Db, a: VoucherOrder, b: VoucherOrder, c: VoucherOrder, now: Time)
    requires db == Db(Book(map[10 := OrderRow(1, 7, UNPAID)], map[10 := now]), map[7 := 5])
    requires a == VoucherOrder(10, 1, 7) && b == VoucherOrder(20, 2, 7) && c == VoucherOrder(21, 2, 7)
    ensures CreateEach(db, [a, b, c], now).Ok?
    ensures CreateEach(db, [a, b, c], now).value.book.createdAt == map[10 := now, 20 := now, 21 := now]
  {
    assert Candidates(db.book, 1, 7) == {10};
    SelectIsTop(db.book, 1, 7, 10);
    assert CreateOne(db, a, now) == Ok(db);
    var db1 := CreateOne(db, b, now).value;
    var db2 := CreateOne(db1, c, now).value;
    assert [a, b, c] == [a] + [b, c];
    CreateConcat(db, [a], [b, c], now);
    CreateSingle(db, a, now);
    CreateTwo(db, b, c, now);
    assert db2.book.createdAt == map[10 := now, 20 := now, 21 := now];
  }

  // ---- The service ----

  // An order as it arrives; null fields and null orders included.
  datatype RawOrder = NullOrder | RawOrder(id: Option<OrderId>, userId: Option<UserId>, voucherId: Option<VoucherId>)

  predicate Whole(raw: RawOrder) {
    raw.RawOrder? && raw.id.Some? && raw.userId.Some? && raw.voucherId.Some?
  }

  function OrderOf(raw: RawOrder): VoucherOrder
    requires Whole(raw)
  {
    VoucherOrder(raw.id.value, raw.userId.value, raw.voucherId.value)
  }

  function WholeOrders(raws: seq<RawOrder>): (orders: seq<VoucherOrder>)
    requires forall i | 0 <= i < |raws| :: Whole(raws[i])
    ensures |orders| == |raws| && forall i | 0 <= i < |raws| :: orders[i] == OrderOf(raws[i])
  {
    seq(|raws|, i requires 0 <= i < |raws| => OrderOf(raws[i]))
  }

  class Database {
    var db: Db

    method BatchInsertIgnore(orders: seq<VoucherOrder>, now: Time) returns (inserted: nat)
      modifies this
      ensures db == old(db).(book := InsertOrders(old(db).book, orders, now))
      ensures inserted == Inserted(old(db).book, orders, now)
    {
      inserted := Inserted(db.book, orders, now);
      db := db.(book := InsertOrders(db.book, orders, now));
    }

    method DecrementStock(v: VoucherId, amount: nat) returns (updated: nat)
      modifies this
      ensures if Enough(old(db).stock, v, amount)
              then updated == 1 && db == old(db).(stock := old(db).stock[v := old(db).stock[v] - amount])
              else updated == 0 && db == old(db)
    {
      if Enough(db.stock, v, amount) {
        db := db.(stock := db.stock[v := db.stock[v] - amount]);
        return 1;
      }
      return 0;
    }
  }

  function Vouchers(orders: seq<VoucherOrder>): (keys: seq<VoucherId>)
    decreases |orders|
  {
    if orders == [] then [] else [orders[0].voucherId] + Vouchers(Others(orders, orders[0].voucherId))
  }

  class VoucherOrderPersistenceService {
    const database: Database

    constructor (database: Database)
      ensures this.database == database
    {
      this.database := database;
    }

    /** All orders of the batch or, on any error, none. */
    method CreateVoucherOrders(voucherOrders: seq<RawOrder>, now: Time) returns (r: Result<(), CreateError>)
      modifies database
      ensures if forall i | 0 <= i < |voucherOrders| :: Whole(voucherOrders[i])
              then match CreateGrouped(old(database.db), WholeOrders(voucherOrders), now)
                   case Ok(db) => r == Ok(()) && database.db == db
                   case Err(e) => r == Err(e) && database.db == old(database.db)
              else r == Err(Incomplete) && database.db == old(database.db)
    {
      if voucherOrders == [] {
        return Ok(());
      }
      var grouped := Group(voucherOrders);
      if grouped.None? {
        return Err(Incomplete);
      }
      var (keys, groups) := grouped.value;
      ghost var orders, rest := WholeOrders(voucherOrders), WholeOrders(voucherOrders);
      var db := database.db;
      for k := 0 to |keys|
        invariant keys[k..] == Vouchers(rest)
        invariant forall v | v in keys[k..] :: v in groups && groups[v] == Only(rest, v)
        invariant CreateGrouped(db, orders, now) == CreateGrouped(database.db, rest, now)
      {
        var v := keys[k];
        NextGroup(rest, keys[k..]);
        var e := CreateOneGroup(v, groups[v], now);
        if e.Some? {
          database.db := db;
          return Err(e.value);
        }
        rest := Others(rest, v);
        assert keys[k..][1..] == keys[k + 1..];
      }
      return Ok(());
    }

    // One voucher's orders; the caller rolls back on an error.
    method CreateOneGroup(v: VoucherId, orders: seq<VoucherOrder>, now: Time) returns (e: Option<CreateError>)
      modifies database
      ensures match CreateGroup(old(database.db), v, orders, now)
              case Ok(db) => e.None? && database.db == db
              case Err(error) => e == Some(error)
    {
      var inserted := database.BatchInsertIgnore(orders, now);
      if inserted < |orders| {
        e := VerifyIgnoredOrdersExist(orders);
        if e.Some? {
          return;
        }
      }
      if inserted == 0 {
        return None;
      }
      var updated := database.DecrementStock(v, inserted);
      if updated != 1 {
        return Some(StockMismatch(v, inserted));
      }
      return None;
    }

    method VerifyIgnoredOrdersExist(orders: seq<VoucherOrder>) returns (e: Option<CreateError>)
      ensures e == VerifyAll(database.db.book, orders)
    {
      for i := 0 to |orders|
        invariant VerifyAll(database.db.book, orders) == VerifyAll(database.db.book, orders[i..])
      {
        var existing := SelectOrderId(database.db.book, orders[i].userId, orders[i].voucherId);
        assert orders[i..][0] == orders[i] && orders[i..][1..] == orders[i + 1..];
        if existing.None? {
          return Some(NoSuchOrder(orders[i].id));
        }
        if orders[i].id != existing.value {
          return Some(OrderIdConflict(orders[i].id, existing.value));
        }
      }
      return None;
    }

    static method Group(raws: seq<RawOrder>)
      returns (r: Option<(seq<VoucherId>, map<VoucherId, seq<VoucherOrder>>)>)
      ensures r.None? <==> exists i | 0 <= i < |raws| :: !Whole(raws[i])
      ensures r.Some? ==> Grouping(WholeOrders(raws), r.value.0, r.value.1)
    {
      hide Grouping, Only, Vouchers;
      var keys: seq<VoucherId>, groups: map<VoucherId, seq<VoucherOrder>> := [], map[];
      ghost var orders: seq<VoucherOrder> := [];
      NoGrouping();
      for i := 0 to |raws|
        invariant forall k | 0 <= k < i :: Whole(raws[k])
        invariant |orders| == i && forall k | 0 <= k < i :: orders[k] == OrderOf(raws[k])
        invariant Grouping(orders, keys, groups)
      {
        if !Whole(raws[i]) {
          return None;
        }
        var order := OrderOf(raws[i]);
        NextGrouping(orders, keys, groups, order);
        orders := orders + [order];
        if order.voucherId !in groups {
          keys, groups := keys + [order.voucherId], groups[order.voucherId := []];
        }
        groups := groups[order.voucherId := groups[order.voucherId] + [order]];
      }
      assert orders == WholeOrders(raws);
      return Some((keys, groups));
    }
  }

  ghost predicate Grouping(orders: seq<VoucherOrder>, keys: seq<VoucherId>, groups: map<VoucherId, seq<VoucherOrder>>) {
    && keys == Vouchers(orders)
    && (forall v :: v in groups <==> v in keys)
    && (forall v | v in groups :: groups[v] == Only(orders, v))
    && (forall v | v !in groups :: Only(orders, v) == [])
  }

  lemma NoGrouping()
    ensures Grouping([], [], map[])
  {
  }

  lemma NextGrouping(
    orders: seq<VoucherOrder>, keys: seq<VoucherId>, groups: map<VoucherId, seq<VoucherOrder>>, o: VoucherOrder)
    requires Grouping(orders, keys, groups)
    ensures if o.voucherId in groups
            then Grouping(orders + [o], keys, groups[o.voucherId := groups[o.voucherId] + [o]])
            else Grouping(orders + [o], keys + [o.voucherId],
                groups[o.voucherId := []][o.voucherId := groups[o.voucherId := []][o.voucherId] + [o]])
  {
    hide Only, Vouchers;
    VouchersOfMore(orders, o);
    forall v ensures Only(orders + [o], v) == if v == o.voucherId then Only(orders, v) + [o] else Only(orders, v) {
      OnlyOfMore(orders, o, v);
    }
  }

  lemma {:induction false} OnlyOfMore(orders: seq<VoucherOrder>, o: VoucherOrder, v: VoucherId)
    ensures Only(orders + [o], v) == if v == o.voucherId then Only(orders, v) + [o] else Only(orders, v)
  {
    var more := orders + [o];
    if orders == [] {
      assert more[1..] == [] && Only(more[1..], v) == [];
    } else {
      assert more[1..] == orders[1..] + [o];
      OnlyOfMore(orders[1..], o, v);
    }
  }

  lemma {:induction false} OthersOfMore(orders: seq<VoucherOrder>, o: VoucherOrder, v: VoucherId)
    ensures Others(orders + [o], v) == if v == o.voucherId then Others(orders, v) else Others(orders, v) + [o]
  {
    var more := orders + [o];
    if orders == [] {
      assert more[1..] == [] && Others(more[1..], v) == [];
    } else {
      assert more[1..] == orders[1..] + [o];
      OthersOfMore(orders[1..], o, v);
    }
  }

  lemma FirstVoucher(orders: seq<VoucherOrder>)
    requires orders != []
    ensures Vouchers(orders) == [orders[0].voucherId] + Vouchers(Others(orders, orders[0].voucherId))
    ensures |Others(orders, orders[0].voucherId)| < |orders|
  {
    hide Others;
  }

  lemma {:induction false} VouchersOfMore(orders: seq<VoucherOrder>, o: VoucherOrder)
    ensures Vouchers(orders + [o])
         == if o.voucherId in Vouchers(orders) then Vouchers(orders) else Vouchers(orders) + [o.voucherId]
    decreases |orders|
  {
    if orders == [] {
      assert Vouchers([]) == [];
      assert orders + [o] == [o] && Others([o], o.voucherId) == [];
    } else {
      hide Others, Vouchers;
      var v, more := orders[0].voucherId, orders + [o];
      OthersOfMore(orders, o, v);
      assert more[0] == orders[0];
      FirstVoucher(more);
      FirstVoucher(orders);
      if o.voucherId != v {
        VouchersOfMore(Others(orders, v), o);
        AfterFirst(v, Vouchers(Others(orders, v)), o.voucherId);
      }
    }
  }

  lemma AfterFirst(v: VoucherId, rest: seq<VoucherId>, w: VoucherId)
    requires v != w
    ensures [v] + (if w in rest then rest else rest + [w])
         == if w in [v] + rest then [v] + rest else [v] + rest + [w]
  {
  }

  lemma NextGroup(rest: seq<VoucherOrder>, keys: seq<VoucherId>)
    requires keys == Vouchers(rest) && keys != []
    ensures rest != [] && keys[0] == rest[0].voucherId && keys[1..] == Vouchers(Others(rest, keys[0]))
    ensures forall w | w in keys[1..] :: w != keys[0] && Only(Others(rest, keys[0]), w) == Only(rest, w)
  {
    VouchersAreOfOrders(Others(rest, keys[0]));
    forall w | w in keys[1..] ensures Only(Others(rest, keys[0]), w) == Only(rest, w) {
      OnlyOfOthers(rest, keys[0], w);
    }
  }

  lemma {:induction false} VouchersAreOfOrders(orders: seq<VoucherOrder>)
    ensures forall v | v in Vouchers(orders) :: exists o | o in orders :: o.voucherId == v
    decreases |orders|
  {
    if orders != [] {
      VouchersAreOfOrders(Others(orders, orders[0].voucherId));
    }
  }
}
