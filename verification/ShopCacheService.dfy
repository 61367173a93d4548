/** A shop query through the two cache levels, as one instance carries it out. */
module ShopCacheService {
  import opened Wrappers

  type ShopId = int
  datatype Shop = Shop(content: string)

  datatype Entry = Hit(shop: Shop) | NullMarker

  datatype QueryError = TimedOut | Interrupted

  // How the wait for the rebuild lock ends.
  datatype LockOutcome = Acquired | NotAcquired | InterruptedWaiting

  // What others put into the caches during the wait.
  datatype Meanwhile = Meanwhile(l1: map<ShopId, Shop>, l2: map<ShopId, Entry>)

  // Of one shop: neither level says anything but what the database says.
  predicate Coherent(l1: map<ShopId, Shop>, l2: map<ShopId, Entry>, id: ShopId, database: Option<Shop>) {
    && (id in l1 ==> database == Some(l1[id]))
    && (id in l2 ==> database == match l2[id] case Hit(shop) => Some(shop) case NullMarker => None)
  }

  // The filter knows every shop there is.
  predicate NoFalseNegative(mightContain: bool, database: Option<Shop>) {
    database.Some? ==> mightContain
  }

  class ShopCacheServiceImpl {
    var l1: map<ShopId, Shop>
    var l2: map<ShopId, Entry>

    /** The caches are transparent: as long as they are coherent, with what others do meanwhile included,
        a query that is answered is answered what the database says, the caches stay coherent, and both
        levels serve the shop afterwards. Only a query that gets no rebuild lock and finds nothing
        cached fails. Entries of other shops are left alone. */
    method QueryById(
      shopId: Option<ShopId>, mightContain: bool, lock: LockOutcome, meanwhile: Meanwhile, database: Option<Shop>)
      returns (r: Result<Option<Shop>, QueryError>)
      modifies this
      ensures shopId.None? ==> r == Ok(None) && l1 == old(l1) && l2 == old(l2)
      ensures var waited := Waited(shopId, mightContain, old(l1), old(l2)) && !lock.InterruptedWaiting?;
              && (forall x | Some(x) != shopId :: Same(x, l1, if waited then meanwhile.l1 else old(l1)))
              && (forall x | Some(x) != shopId :: Same(x, l2, if waited then meanwhile.l2 else old(l2)))
      ensures r.Err? <==> Waited(shopId, mightContain, old(l1), old(l2))
                          && (lock.InterruptedWaiting?
                              || (lock.NotAcquired? && shopId.value !in meanwhile.l1 && shopId.value !in meanwhile.l2))
      ensures shopId.Some? && NoFalseNegative(mightContain, database)
              && Coherent(old(l1), old(l2), shopId.value, database)
              && Coherent(meanwhile.l1, meanwhile.l2, shopId.value, database) ==>
                && Coherent(l1, l2, shopId.value, database)
                && (r.Ok? ==> r.value == database)
                && (r.Ok? && database.Some? ==> shopId.value in l1)
      ensures shopId.Some? && shopId.value in old(l1) ==> r == Ok(Some(old(l1)[shopId.value]))
      ensures shopId.Some? && shopId.value !in old(l1) && mightContain && shopId.value in old(l2) ==>
                if old(l2)[shopId.value].Hit?
                then r == Ok(Some(old(l2)[shopId.value].shop))
                     && l1 == old(l1)[shopId.value := old(l2)[shopId.value].shop]
                else r == Ok(None)
      ensures Rebuilds(shopId, mightContain, old(l1), old(l2), lock, meanwhile) ==>
                && r == Ok(database)
                && l2 == meanwhile.l2[shopId.value := if database.Some? then Hit(database.value) else NullMarker]
                && l1 == if database.Some? then meanwhile.l1[shopId.value := database.value] else meanwhile.l1
    {
      if shopId.None? {
        return Ok(None);
      }
      var id := shopId.value;
      if id in l1 {
        return Ok(Some(l1[id]));
      }
      if !mightContain {
        return Ok(None);
      }
      if id in l2 {
        r := FromRedis(id);
        return;
      }
      if lock.InterruptedWaiting? {
        return Err(Interrupted);
      }
      l1, l2 := meanwhile.l1, meanwhile.l2;
      if lock.NotAcquired? {
        r := ReadLastChance(id);
        return;
      }
      if id in l1 {
        return Ok(Some(l1[id]));
      }
      if id in l2 {
        r := FromRedis(id);
        return;
      }
      if database.None? {
        l2 := l2[id := NullMarker];
        l1 := l1 - {id};
        return Ok(None);
      }
      l2 := l2[id := Hit(database.value)];
      l1 := l1[id := database.value];
      return Ok(database);
    }

    // A hit also fills the first level; the null marker does not.
    method FromRedis(id: ShopId) returns (r: Result<Option<Shop>, QueryError>)
      requires id in l2
      modifies this`l1
      ensures l2[id].Hit? ==> l1 == old(l1)[id := l2[id].shop] && r == Ok(Some(l2[id].shop))
      ensures l2[id].NullMarker? ==> l1 == old(l1) && r == Ok(None)
    {
      if l2[id].NullMarker? {
        return Ok(None);
      }
      l1 := l1[id := l2[id].shop];
      return Ok(Some(l2[id].shop));
    }

    method ReadLastChance(id: ShopId) returns (r: Result<Option<Shop>, QueryError>)
      modifies this`l1
      ensures r.Err? <==> id !in old(l1) && id !in l2
      ensures id in old(l1) ==> r == Ok(Some(old(l1)[id])) && l1 == old(l1)
      ensures id !in old(l1) && id in l2 && l2[id].Hit? ==> r == Ok(Some(l2[id].shop)) && l1 == old(l1)[id := l2[id].shop]
      ensures id !in old(l1) && (id !in l2 || l2[id].NullMarker?) ==> l1 == old(l1) && (r.Ok? ==> r.value.None?)
    {
      if id in l1 {
        return Ok(Some(l1[id]));
      }
      if id in l2 {
        r := FromRedis(id);
        return;
      }
      return Err(TimedOut);
    }
  }

  // The query gets the rebuild lock, and finds nothing in the caches then, either.
  predicate Rebuilds(
    shopId: Option<ShopId>, mightContain: bool, l1: map<ShopId, Shop>, l2: map<ShopId, Entry>, lock: LockOutcome,
    meanwhile: Meanwhile)
  {
    Waited(shopId, mightContain, l1, l2) && lock.Acquired? && shopId.value !in meanwhile.l1
    && shopId.value !in meanwhile.l2
  }

  // The query gets as far as the rebuild lock.
  predicate Waited(shopId: Option<ShopId>, mightContain: bool, l1: map<ShopId, Shop>, l2: map<ShopId, Entry>) {
    shopId.Some? && shopId.value !in l1 && mightContain && shopId.value !in l2
  }

  predicate Same<T(==)>(x: ShopId, a: map<ShopId, T>, b: map<ShopId, T>) {
    (x in a <==> x in b) && (x in a ==> a[x] == b[x])
  }

  /** After a rebuild the database is not asked again, not even by an instance that has nothing in its own
      cache: the shop, or that there is none, is answered from the second level. */
  method AskedOnce(
    service: ShopCacheServiceImpl, id: ShopId, database: Option<Shop>, elsewhere: Option<Shop>, meanwhile: Meanwhile)
    returns (first: Result<Option<Shop>, QueryError>, second: Result<Option<Shop>, QueryError>)
    requires id !in service.l1 && id !in service.l2 && id !in meanwhile.l1 && id !in meanwhile.l2
    modifies service
    ensures first == second == Ok(database)
  {
    first := service.QueryById(Some(id), true, Acquired, meanwhile, database);
    service.l1 := map[];
    second := service.QueryById(Some(id), true, InterruptedWaiting, meanwhile, elsewhere);
  }
}
