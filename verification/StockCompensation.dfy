/** Cancelling an order and adjusting a stock change MySQL inside a transaction and Redis beside it. When
    the transaction does not commit, Redis is changed back. */
module StockCompensation {
  import opened Wrappers
  import opened SeckillTypes
  import opened OrderPersistence

  datatype Fault = OrderMissing | AlreadyCancelled | NoVoucher | TooLow | StockNotReturned | RedisFailed | BadRequest

  // How the request ends once its method body is through: the transaction commits or it is rolled back.
  datatype Ending = Commits | RollsBack

  // A reply of Redis arrives, or it does not: before or after the script took effect.
  datatype Reply = Received | LostBefore | LostAfter

  // MySQL, the stock counters of Redis and the marks of who bought.
  class Stores {
    var db: Db
    var redisStock: map<VoucherId, int>
    var purchased: set<(VoucherId, UserId)>

    // A missing key counts as zero, as INCRBY takes it.
    function RedisStock(v: VoucherId): int
      reads this
    {
      if v in redisStock then redisStock[v] else 0
    }

    function DbStock(v: VoucherId): int
      reads this
    {
      if v in db.stock then db.stock[v] else 0
    }

    // How far MySQL is ahead of Redis.
    function Gap(v: VoucherId): int
      reads this
    {
      DbStock(v) - RedisStock(v)
    }

    method IncrBy(v: VoucherId, change: int) returns (value: int)
      modifies this`redisStock
      ensures value == old(RedisStock(v)) + change && redisStock == old(redisStock)[v := value]
    {
      value := RedisStock(v) + change;
      redisStock := redisStock[v := value];
    }

    method AdjustStock(v: VoucherId, change: int) returns (updated: nat)
      modifies this`db
      ensures updated == if v in old(db).stock && old(db).stock[v] + change >= 0 then 1 else 0
      ensures db == if updated == 1 then old(db).(stock := old(db).stock[v := old(db).stock[v] + change]) else old(db)
    {
      if v in db.stock && db.stock[v] + change >= 0 {
        db := db.(stock := db.stock[v := db.stock[v] + change]);
        return 1;
      }
      return 0;
    }

    method CancelScript(v: VoucherId, u: UserId) returns (code: int)
      modifies this`redisStock, this`purchased
      ensures v !in old(redisStock) ==> code == -1 && redisStock == old(redisStock) && purchased == old(purchased)
      ensures v in old(redisStock) ==>
                && code == (if (v, u) in old(purchased) then 1 else 0)
                && redisStock == old(redisStock)[v := old(redisStock)[v] + 1] && purchased == old(purchased) - {(v, u)}
    {
      if v !in redisStock {
        return -1;
      }
      code := if (v, u) in purchased then 1 else 0;
      purchased := purchased - {(v, u)};
      redisStock := redisStock[v := redisStock[v] + 1];
    }

    method CancelRollbackScript(v: VoucherId, u: UserId) returns (code: int)
      modifies this`redisStock, this`purchased
      ensures code == if v in old(redisStock) && old(redisStock)[v] > 0 then 1 else -1
      ensures if code == 1
              then redisStock == old(redisStock)[v := old(redisStock)[v] - 1] && purchased == old(purchased) + {(v, u)}
              else redisStock == old(redisStock) && purchased == old(purchased)
    {
      if v !in redisStock || redisStock[v] <= 0 {
        return -1;
      }
      redisStock := redisStock[v := redisStock[v] - 1];
      purchased := purchased + {(v, u)};
      return 1;
    }

    // Purchases by others while the transaction is still open.
    method OthersBuy(v: VoucherId, buyers: set<UserId>) returns (sold: nat)
      modifies this`redisStock, this`purchased
      ensures sold == if v in old(redisStock) && |buyers| <= old(redisStock)[v] then |buyers| else 0
      ensures redisStock == if sold == 0 then old(redisStock) else old(redisStock)[v := old(RedisStock(v)) - sold]
      ensures purchased == old(purchased) + Bought(v, buyers, sold)
    {
      if v in redisStock && |buyers| <= redisStock[v] {
        sold := |buyers|;
        redisStock := if sold == 0 then redisStock else redisStock[v := redisStock[v] - sold];
        purchased := purchased + Bought(v, buyers, sold);
      } else {
        NoneBought(v, buyers);
        sold := 0;
      }
    }
  }

  class VoucherOrderService {
    const stores: Stores

    constructor (stores: Stores)
      ensures this.stores == stores
    {
      this.stores := stores;
    }

    /** A cancellation that commits moves both stocks by one; any other outcome leaves MySQL as it was and
        Redis in step with it, counting what others bought meanwhile, in all cases but two: the reply got
        lost after the script ran, or the returned unit is gone again before the rollback takes it back. */
    method CancelVoucherOrder(v: VoucherId, u: UserId, reply: Reply, buyers: set<UserId>, ending: Ending)
      returns (r: Result<OrderId, Fault>, sold: nat, ghost restored: bool)
      modifies stores
      ensures r.Ok? <==> v in old(stores.redisStock) && Cancellable(old(stores.db), v, u) && reply.Received?
      ensures r.Ok? && ending.Commits? <==> stores.db != old(stores.db)
      ensures r.Ok? && ending.Commits? ==>
                && r.value in old(stores.db).book.orders && v in old(stores.db).stock
                && stores.db == Db(CancelledBook(old(stores.db).book, r.value),
                    old(stores.db).stock[v := old(stores.db).stock[v] + 1])
                && old(stores.db).book.orders[r.value].userId == u && old(stores.db).book.orders[r.value].voucherId == v
      ensures r.Ok? ==> NewestOf(old(stores.db).book, v, u, r.value)
      ensures sold == if r.Ok? && |buyers| <= old(stores.redisStock)[v] + 1 then |buyers| else 0
      ensures var ran := v in old(stores.redisStock) && Cancellable(old(stores.db), v, u) && !reply.LostBefore?;
              stores.purchased == old(stores.purchased) - (if ran then {(v, u)} else {})
                                  + Bought(v, buyers, sold)
                                  + (if r.Ok? && ending.RollsBack? && restored then {(v, u)} else {})
      ensures stores.redisStock
           == if v in old(stores.redisStock) && Cancellable(old(stores.db), v, u) && !reply.LostBefore?
              then old(stores.redisStock)[v := old(stores.redisStock)[v] + 1 - sold
                                               - (if r.Ok? && ending.RollsBack? && restored then 1 else 0)]
              else old(stores.redisStock)
      ensures stores.Gap(v) == old(stores.Gap(v)) + sold - (if restored then 0 else 1)
      ensures !restored <==>
                && v in old(stores.redisStock) && Cancellable(old(stores.db), v, u)
                && (|| reply.LostAfter?
                    || (&& reply.Received? && ending.RollsBack?
                        && (old(stores.redisStock)[v] + 1 <= 0 || old(stores.redisStock)[v] + 1 == |buyers|)))
    {
      hide SelectOrderId, Top, Candidates, Bought, CancelledBook, Cancellable, NewestOf;
      NoneBought(v, buyers);
      var db := stores.db;
      restored := true;
      sold := 0;
      r := Cancel(v, u, reply);
      if r.Err? {
        restored := !(v in old(stores.redisStock) && Cancellable(old(stores.db), v, u) && reply.LostAfter?);
        return;
      }
      sold, restored := End(db, v, u, buyers, ending);
    }

    // Others buy, and then the transaction ends, with MySQL as it was at `db` if it rolls back.
    method End(db: Db, v: VoucherId, u: UserId, buyers: set<UserId>, ending: Ending)
      returns (sold: nat, restored: bool)
      requires v in stores.redisStock
      modifies stores
      ensures stores.db == if ending.Commits? then old(stores.db) else db
      ensures sold == if |buyers| <= old(stores.redisStock)[v] then |buyers| else 0
      ensures restored <==> ending.Commits? || old(stores.redisStock)[v] - sold > 0
      ensures var taken := if ending.RollsBack? && restored then 1 else 0;
              && stores.redisStock == old(stores.redisStock)[v := old(stores.redisStock)[v] - sold - taken]
              && stores.purchased == old(stores.purchased) + Bought(v, buyers, sold) + if taken == 1 then {(v, u)} else {}
    {
      hide Bought;
      sold := stores.OthersBuy(v, buyers);
      assert stores.redisStock == old(stores.redisStock)[v := old(stores.redisStock)[v] - sold];
      restored := true;
      if ending.RollsBack? {
        restored := AfterRollback(db, v, u);
      }
    }

    // What the transaction runs; an exception takes back what it did to MySQL.
    method Cancel(v: VoucherId, u: UserId, reply: Reply) returns (r: Result<OrderId, Fault>)
      modifies stores
      ensures r.Ok? <==> v in old(stores.redisStock) && Cancellable(old(stores.db), v, u) && reply.Received?
      ensures r.Ok? ==>
                && r.value in old(stores.db).book.orders && v in old(stores.db).stock
                && stores.db == Db(CancelledBook(old(stores.db).book, r.value),
                    old(stores.db).stock[v := old(stores.db).stock[v] + 1])
                && old(stores.db).book.orders[r.value].userId == u && old(stores.db).book.orders[r.value].voucherId == v
      ensures r.Ok? ==> NewestOf(old(stores.db).book, v, u, r.value)
      ensures r.Err? ==> stores.db == old(stores.db)
      ensures if v in old(stores.redisStock) && Cancellable(old(stores.db), v, u) && !reply.LostBefore?
              then stores.redisStock == old(stores.redisStock)[v := old(stores.redisStock)[v] + 1]
                   && stores.purchased == old(stores.purchased) - {(v, u)}
              else stores.redisStock == old(stores.redisStock) && stores.purchased == old(stores.purchased)
    {
      SelectedIsStored(stores.db.book, u, v);
      SelectsNewest(stores.db.book, u, v);
      hide SelectOrderId, Top, Candidates, CancelledBook, Active;
      var db := stores.db;
      var order := SelectOrderId(stores.db.book, u, v);
      if order.None? {
        return Err(OrderMissing);
      }
      var status := stores.db.book.orders[order.value].status;
      if status != 1 && status != 2 {
        return Err(AlreadyCancelled);
      }
      stores.db := stores.db.(book := CancelledBook(stores.db.book, order.value));
      var adjusted := stores.AdjustStock(v, 1);
      if adjusted != 1 {
        stores.db := db;
        return Err(StockNotReturned);
      }
      var code := -1;
      if !reply.LostBefore? {
        code := stores.CancelScript(v, u);
      }
      if !reply.Received? || code < 0 {
        stores.db := db;
        return Err(RedisFailed);
      }
      return Ok(order.value);
    }

    // MySQL is back at `db`; Redis is asked to follow.
    method AfterRollback(db: Db, v: VoucherId, u: UserId) returns (compensated: bool)
      modifies stores
      ensures stores.db == db
      ensures compensated <==> v in old(stores.redisStock) && old(stores.redisStock)[v] > 0
      ensures if compensated
              then stores.redisStock == old(stores.redisStock)[v := old(stores.redisStock)[v] - 1]
                   && stores.purchased == old(stores.purchased) + {(v, u)}
              else stores.redisStock == old(stores.redisStock) && stores.purchased == old(stores.purchased)
    {
      stores.db := db;
      var code := stores.CancelRollbackScript(v, u);
      return code == 1;
    }
  }

  class VoucherService {
    const stores: Stores

    constructor (stores: Stores)
      ensures this.stores == stores
    {
      this.stores := stores;
    }

    /** An adjustment changes both stocks by the same amount or neither: whichever way it ends, MySQL is
        ahead of Redis by as much as before and what others bought meanwhile; only a reply lost after the
        increment took effect leaves Redis changed alone. Taking an adjustment back has no floor: the stock of
        Redis ends below zero exactly when more was sold meanwhile than there had been before an increase, or
        when a decrease below zero took effect and its reply was lost. */
    method UpdateSeckillVoucherStock(
      voucherId: Option<VoucherId>, changeStock: Option<int>, reply: Reply, buyers: set<UserId>, ending: Ending)
      returns (r: Result<int, Fault>, sold: nat)
      modifies stores
      ensures r.Err? && r.error.BadRequest? <==> voucherId.None? || changeStock.None? || changeStock.value == 0
      ensures voucherId.None? ==> stores.db == old(stores.db) && stores.redisStock == old(stores.redisStock)
      ensures forall w | voucherId != Some(w) :: stores.Gap(w) == old(stores.Gap(w))
      ensures voucherId.Some? ==>
                var v := voucherId.value;
                var lost := r == Err(RedisFailed) && reply.LostAfter?;
                && stores.Gap(v) == old(stores.Gap(v)) + sold - (if lost then changeStock.value else 0)
                && (if r.Ok? && ending.Commits? && v in old(stores.db).stock
                    then stores.db
                       == old(stores.db).(stock := old(stores.db).stock[v := old(stores.db).stock[v] + changeStock.value])
                    else stores.db == old(stores.db))
                && (r.Ok? ==> r.value == old(stores.RedisStock(v)) + changeStock.value)
                && stores.purchased == old(stores.purchased) + Bought(v, buyers, sold)
      ensures sold == if r.Ok? && |buyers| <= r.value then |buyers| else 0
      ensures voucherId.Some? && changeStock.Some? ==>
                var v, change, before := voucherId.value, changeStock.value, old(stores.RedisStock(voucherId.value));
                && (r.Ok? <==> Adjustable(old(stores.db), v, change) && reply.Received? && before + change >= 0)
                && (before >= 0 ==>
                      (stores.RedisStock(v) < 0 <==>
                       && Adjustable(old(stores.db), v, change)
                       && (|| (reply.Received? && ending.RollsBack? && before < |buyers| <= before + change)
                           || (reply.LostAfter? && before + change < 0))))
    {
      hide Bought;
      sold := 0;
      if voucherId.Some? {
        NoneBought(voucherId.value, buyers);
      }
      if voucherId.None? || changeStock.None? || changeStock.value == 0 {
        return Err(BadRequest), 0;
      }
      var v, change := voucherId.value, changeStock.value;
      if v !in stores.db.stock {
        return Err(NoVoucher), 0;
      }
      var db := stores.db;
      var adjusted := stores.AdjustStock(v, change);
      if adjusted != 1 {
        return Err(TooLow), 0;
      }
      var redisStock := -1;
      if !reply.LostBefore? {
        redisStock := stores.IncrBy(v, change);
      }
      if !reply.Received? || redisStock < 0 {
        if reply.Received? {
          var _ := stores.IncrBy(v, -change);
        }
        stores.db := db;
        return Err(RedisFailed), 0;
      }
      sold := stores.OthersBuy(v, buyers);
      if ending.RollsBack? {
        stores.db := db;
        var _ := stores.IncrBy(v, -change);
      }
      return Ok(redisStock), sold;
    }
  }

  lemma SelectedIsStored(book: Book, u: UserId, v: VoucherId)
    ensures var o := SelectOrderId(book, u, v);
            o.Some? ==> o.value in book.orders && book.orders[o.value].userId == u && book.orders[o.value].voucherId == v
                        && Active(book.orders[o.value])
  {
  }

  // The marks of the buyers, who bought all or none.
  function Bought(v: VoucherId, buyers: set<UserId>, sold: nat): set<(VoucherId, UserId)> {
    set u | u in buyers && sold == |buyers| :: (v, u)
  }

  lemma NoneBought(v: VoucherId, buyers: set<UserId>)
    ensures Bought(v, buyers, 0) == {}
  {
    forall p | p in Bought(v, buyers, 0) ensures false {}
  }

  function CancelledBook(book: Book, o: OrderId): Book
    requires o in book.orders
  {
    book.(orders := book.orders[o := book.orders[o].(status := CANCELLED)])
  }

  /** One order is cancelled, with status 4, and nothing else is changed. */
  lemma CancelledAlone(book: Book, o: OrderId)
    requires o in book.orders
    ensures CancelledBook(book, o).orders[o] == OrderRow(book.orders[o].userId, book.orders[o].voucherId, 4)
    ensures CancelledBook(book, o).orders - {o} == book.orders - {o}
    ensures CancelledBook(book, o).createdAt == book.createdAt
  {
  }

  // An active order of the user and voucher, none of which was created later.
  predicate NewestOf(book: Book, v: VoucherId, u: UserId, o: OrderId) {
    && o in book.orders && book.orders[o].userId == u && book.orders[o].voucherId == v && book.orders[o].status != 4
    && forall x | x in book.orders && book.orders[x].userId == u && book.orders[x].voucherId == v
                  && book.orders[x].status != 4 && x in book.createdAt && o in book.createdAt ::
      book.createdAt[x] <= book.createdAt[o]
  }

  // The cancellation gets as far as Redis.
  predicate Cancellable(db: Db, v: VoucherId, u: UserId) {
    var o := SelectOrderId(db.book, u, v);
    && o.Some? && o.value in db.book.orders
    && (db.book.orders[o.value].status == 1 || db.book.orders[o.value].status == 2)
    && v in db.stock && db.stock[v] + 1 >= 0
  }

  // The adjustment gets as far as Redis.
  predicate Adjustable(db: Db, v: VoucherId, change: int) {
    change != 0 && v in db.stock && db.stock[v] + change >= 0
  }

  /** Order 10 of buyer 1 is cancelled when no unit is left, buyer 2 takes the returned unit, and the
      transaction rolls back: the rollback script finds no unit. The order is live as before, its buyer is
      not marked any more, and one unit sold is one unit that MySQL does not have. */
  method ResoldUnitIsNotRestored() returns (sold: nat, before: int, after: int, live: bool, marked: bool, other: bool)
    ensures sold == 1 && after == before && live && !marked && other
  {
    var stores := new Stores;
    var order := OrderRow(1, 7, UNPAID);
    stores.db := Db(Book(map[10 := order], map[10 := 0]), map[7 := 0]);
    stores.redisStock := map[7 := 0];
    stores.purchased := {(7, 1)};
    before := stores.Gap(7);
    assert SelectOrderId(stores.db.book, 1, 7) == Some(10) by {
      SelectIsTop(stores.db.book, 1, 7, 10);
    }
    var service := new VoucherOrderService(stores);
    var r, bought, _ := service.CancelVoucherOrder(7, 1, Received, {2}, RollsBack);
    sold, after := bought, stores.Gap(7);
    live := 10 in stores.db.book.orders && Active(stores.db.book.orders[10]);
    marked, other := (7, 1) in stores.purchased, (7, 2) in stores.purchased;
    assert (7, 1) !in Bought(7, {2}, 1) && (7, 2) in Bought(7, {2}, 1);
  }

  /** Orders 10 and 11 of one buyer were created at 100 and 200: the cancellation takes 11. */
  method LaterOrderIsCancelled() returns (cancelled: Result<OrderId, Fault>)
    ensures cancelled == Ok(11)
  {
    var stores := new Stores;
    var order := OrderRow(1, 7, UNPAID);
    stores.db := Db(Book(map[10 := order, 11 := order], map[10 := 100, 11 := 200]), map[7 := 0]);
    stores.redisStock := map[7 := 0];
    stores.purchased := {(7, 1)};
    LaterOfTwo();
    var service := new VoucherOrderService(stores);
    hide SelectOrderId;
    cancelled := service.Cancel(7, 1, Received);
  }
}
