/** Rebuilds a voucher's stock and buyers in Redis from MySQL and the handoff set, under a lease that may
    run out at any time. */
module Reconciliation {
  import opened Wrappers
  import opened SeckillTypes
  import MemberCodec
  import Pipeline
  import PipelineInvariant

  // An outbox row whose order is not written.
  datatype Unpersisted = Unpersisted(orderId: OrderId, userId: UserId)

  // What the service reads before it writes.
  datatype Reading = Reading(
    stock: int, unpersisted: seq<Unpersisted>, activeUsers: seq<UserId>, members: seq<string>, outbox: set<OrderId>)

  // ---- What is to be written ----

  function Reserved(r: Reading): set<OrderId> {
    set i | 0 <= i < |r.unpersisted| :: r.unpersisted[i].orderId
  }

  predicate OnlyInHandoff(v: VoucherId, r: Reading, member: string, now: Time) {
    match MemberCodec.Parse(v, member, now)
    case None => false
    case Some(e) => e.orderId !in Reserved(r) && e.orderId !in r.outbox
  }

  function CountOnlyInHandoff(v: VoucherId, r: Reading, members: seq<string>, now: Time): nat {
    if members == [] then 0
    else
      var n := |members| - 1;
      CountOnlyInHandoff(v, r, members[..n], now) + if OnlyInHandoff(v, r, members[n], now) then 1 else 0
  }

  function Expected(v: VoucherId, r: Reading, now: Time): int {
    var left := r.stock - |Reserved(r)| - CountOnlyInHandoff(v, r, r.members, now);
    if left < 0 then 0 else left
  }

  function MemberUsers(v: VoucherId, members: seq<string>, now: Time): set<UserId> {
    set i | 0 <= i < |members| && MemberCodec.Parse(v, members[i], now).Some? ::
      MemberCodec.Parse(v, members[i], now).value.userId
  }

  function Buyers(v: VoucherId, r: Reading, now: Time): set<UserId> {
    (set i | 0 <= i < |r.unpersisted| :: r.unpersisted[i].userId)
    + (set u | u in r.activeUsers) + MemberUsers(v, r.members, now)
  }

  // ---- Redis, as far as recovery goes ----

  // What happens to the key of a recovery before a script looks at it: its lease lasts, or it has run
  // out, and another reconciliation may have set the key again.
  datatype Lease = Lasts | RunsOut | TakenOver(taker: string)

  function AfterLease(recovery: map<VoucherId, string>, v: VoucherId, lease: Lease): map<VoucherId, string> {
    match lease
    case Lasts => recovery
    case RunsOut => recovery - {v}
    case TakenOver(taker) => recovery[v := taker]
  }

  class RecoveryStore {
    var stock: map<VoucherId, int>
    var buyers: map<VoucherId, set<UserId>>
    var recovery: map<VoucherId, string>
    var staging: map<string, set<UserId>>

    method SetIfAbsent(v: VoucherId, token: string) returns (locked: bool)
      modifies this`recovery
      ensures locked <==> v !in old(recovery)
      ensures recovery == if locked then old(recovery)[v := token] else old(recovery)
    {
      locked := v !in recovery;
      if locked {
        recovery := recovery[v := token];
      }
    }

    method Renew(v: VoucherId, token: string, lease: Lease) returns (renewed: bool)
      modifies this`recovery
      ensures recovery == AfterLease(old(recovery), v, lease)
      ensures renewed <==> v in recovery && recovery[v] == token
    {
      recovery := AfterLease(recovery, v, lease);
      renewed := v in recovery && recovery[v] == token;
    }

    method Unlock(v: VoucherId, token: string)
      modifies this`recovery
      ensures recovery == if v in old(recovery) && old(recovery)[v] == token then old(recovery) - {v} else old(recovery)
    {
      if v in recovery && recovery[v] == token {
        recovery := recovery - {v};
      }
    }

    // Stock, buyers and the end of the recovery in one step, or nothing.
    method Rebuild(v: VoucherId, token: string, expectedStock: int, stagingKey: string, lease: Lease)
      returns (rebuilt: bool)
      requires stagingKey in staging
      modifies this
      ensures var looked := AfterLease(old(recovery), v, lease);
              && (rebuilt <==> v in looked && looked[v] == token)
              && if rebuilt
                 then stock == old(stock)[v := expectedStock] && buyers == old(buyers)[v := old(staging)[stagingKey]]
                      && recovery == looked - {v} && staging == old(staging) - {stagingKey}
                 else stock == old(stock) && buyers == old(buyers) && staging == old(staging) && recovery == looked
    {
      recovery := AfterLease(recovery, v, lease);
      if v !in recovery || recovery[v] != token {
        return false;
      }
      stock := stock[v := expectedStock];
      buyers := buyers[v := staging[stagingKey]];
      staging := staging - {stagingKey};
      recovery := recovery - {v};
      return true;
    }
  }

  datatype Outcome = Skipped | Rebuilt | Failed

  class SeckillOrderReconciliationService {
    const redis: RecoveryStore
    const redisUserBatchSize: nat
    // What has become of the lease by the time of the i-th look at it.
    const leases: nat -> Lease
    var looks: nat

    ghost predicate LeaseLasts() {
      forall i :: leases(i).Lasts?
    }

    // Every reconciliation has its own token.
    ghost predicate OwnToken(token: string) {
      forall i :: leases(i) != TakenOver(token)
    }

    constructor (redis: RecoveryStore, redisUserBatchSize: int, leases: nat -> Lease)
      ensures this.redis == redis && this.leases == leases && looks == 0
      ensures this.redisUserBatchSize == if redisUserBatchSize < 1 then 1 else redisUserBatchSize
    {
      this.redis, this.leases, looks := redis, leases, 0;
      this.redisUserBatchSize := if redisUserBatchSize < 1 then 1 else redisUserBatchSize;
    }

    /** Either the voucher's stock and buyers become what the reading says, all at once, or they stay as
        they were; the staging key is gone and the recovery not held by this run in every case. A recovery
        that another run has taken over is left to it. */
    method ReconcileVoucher(v: VoucherId, r: Reading, token: string, stagingKey: string, now: Time)
      returns (outcome: Outcome)
      requires stagingKey !in redis.staging && OwnToken(token)
      modifies this, redis
      ensures outcome.Skipped? <==> v in old(redis.recovery)
      ensures outcome.Rebuilt? ==>
                redis.stock == old(redis.stock)[v := Expected(v, r, now)]
                    && redis.buyers == old(redis.buyers)[v := Buyers(v, r, now)]
      ensures !outcome.Rebuilt? ==> redis.stock == old(redis.stock) && redis.buyers == old(redis.buyers)
      ensures redis.staging == old(redis.staging)
      ensures !outcome.Failed? ==> redis.recovery == old(redis.recovery)
      ensures outcome.Failed? ==>
                redis.recovery - {v} == old(redis.recovery) && (v in redis.recovery ==> redis.recovery[v] != token)
      ensures LeaseLasts() ==> !outcome.Failed?
    {
      var locked := redis.SetIfAbsent(v, token);
      if !locked {
        return Skipped;
      }
      var reservedOrderIds, purchasedUserIds := Reservations(r);
      var handoffOnly: nat;
      handoffOnly, purchasedUserIds := MergeHandoffReservations(v, r, reservedOrderIds, purchasedUserIds, now);
      var left := r.stock - |reservedOrderIds| - handoffOnly;
      var expectedStock := if left < 0 then 0 else left;
      assert expectedStock == Expected(v, r, now) && Set(purchasedUserIds) == Buyers(v, r, now);

      var rebuilt := Publish(v, token, stagingKey, purchasedUserIds, expectedStock);
      if rebuilt {
        return Rebuilt;
      }
      redis.staging := redis.staging - {stagingKey};
      redis.Unlock(v, token);
      return Failed;
    }

    // Fills the staging key and, if the lease is still held, puts it in place.
    method Publish(v: VoucherId, token: string, stagingKey: string, users: seq<UserId>, expectedStock: int)
      returns (rebuilt: bool)
      requires stagingKey !in redis.staging && v in redis.recovery && redis.recovery[v] == token && OwnToken(token)
      modifies this`looks, redis
      ensures rebuilt ==>
                && redis.stock == old(redis.stock)[v := expectedStock]
                    && redis.buyers == old(redis.buyers)[v := Set(users)]
                && redis.recovery == old(redis.recovery) - {v} && redis.staging == old(redis.staging)
      ensures !rebuilt ==>
                && redis.stock == old(redis.stock) && redis.buyers == old(redis.buyers)
                && redis.staging - {stagingKey} == old(redis.staging)
                && redis.recovery - {v} == old(redis.recovery) - {v}
      ensures LeaseLasts() ==> rebuilt
    {
      var renewed := RenewRecoveryLease(v, token);
      if !renewed {
        return false;
      }
      redis.staging := redis.staging[stagingKey := {}];
      renewed := WriteUsersInBatches(v, token, stagingKey, users);
      if !renewed {
        return false;
      }
      assert {} + Set(users) == Set(users);
      var lease := leases(looks);
      looks := looks + 1;
      rebuilt := redis.Rebuild(v, token, expectedStock, stagingKey, lease);
    }

    method RenewRecoveryLease(v: VoucherId, token: string) returns (renewed: bool)
      modifies this`looks, redis`recovery
      ensures looks == old(looks) + 1
      ensures redis.recovery == AfterLease(old(redis.recovery), v, leases(old(looks)))
      ensures renewed <==> v in redis.recovery && redis.recovery[v] == token
    {
      renewed := redis.Renew(v, token, leases(looks));
      looks := looks + 1;
    }

    // The users in batches, with a look at the lease after each.
    method WriteUsersInBatches(v: VoucherId, token: string, stagingKey: string, users: seq<UserId>)
      returns (renewed: bool)
      requires stagingKey in redis.staging && v in redis.recovery && redis.recovery[v] == token && OwnToken(token)
      modifies this`looks, redis`recovery, redis`staging
      ensures looks >= old(looks)
      ensures renewed ==> redis.recovery == old(redis.recovery)
                          && redis.staging
                              == old(redis.staging)[stagingKey := old(redis.staging)[stagingKey] + Set(users)]
      ensures !renewed ==> redis.recovery - {v} == old(redis.recovery) - {v}
      ensures renewed <==> v in redis.recovery && redis.recovery[v] == token
      ensures LeaseLasts() ==> renewed
      ensures redis.staging - {stagingKey} == old(redis.staging) - {stagingKey} && stagingKey in redis.staging
    {
      var batch: seq<UserId> := [];
      ghost var before := redis.staging[stagingKey];
      for i := 0 to |users|
        invariant looks >= old(looks) && redis.recovery == old(redis.recovery)
        invariant stagingKey in redis.staging
        invariant redis.staging == old(redis.staging)[stagingKey := redis.staging[stagingKey]]
        invariant redis.staging[stagingKey] + Set(batch) == before + Set(users[..i])
      {
        assert Set(batch + [users[i]]) == Set(batch) + {users[i]};
        batch := batch + [users[i]];
        assert Set(users[..i + 1]) == Set(users[..i]) + {users[i]};
        if |batch| == redisUserBatchSize {
          redis.staging := redis.staging[stagingKey := redis.staging[stagingKey] + Set(batch)];
          renewed := RenewRecoveryLease(v, token);
          if !renewed {
            return;
          }
          batch := [];
          assert Set(batch) == {};
        }
      }
      assert users[..|users|] == users;
      renewed := true;
      assert batch == [] ==> Set(batch) == {};
      if batch != [] {
        redis.staging := redis.staging[stagingKey := redis.staging[stagingKey] + Set(batch)];
        renewed := RenewRecoveryLease(v, token);
      }
      assert redis.staging[stagingKey] == before + Set(users);
    }

    method MergeHandoffReservations(
      v: VoucherId, r: Reading, reserved: set<OrderId>, users: seq<UserId>, now: Time)
      returns (handoffOnly: nat, merged: seq<UserId>)
      requires reserved == Reserved(r)
      ensures handoffOnly == CountOnlyInHandoff(v, r, r.members, now)
      ensures Set(merged) == Set(users) + MemberUsers(v, r.members, now)
    {
      hide MemberCodec.Parse, Reserved, MemberUsers;
      handoffOnly, merged := 0, users;
      assert MemberUsers(v, r.members[..0], now) == {} by {
        NoMemberUsers(v, now);
        assert r.members[..0] == [];
      }
      for i := 0 to |r.members|
        invariant handoffOnly == CountOnlyInHandoff(v, r, r.members[..i], now)
        invariant Set(merged) == Set(users) + MemberUsers(v, r.members[..i], now)
      {
        var event := MemberCodec.Parse(v, r.members[i], now);
        assert r.members[..i + 1][..i] == r.members[..i];
        MoreMemberUsers(v, r.members, i, now);
        if event.None? {
          continue;
        }
        merged := AddUser(merged, event.value.userId);
        if event.value.orderId in reserved {
          continue;
        }
        if event.value.orderId !in r.outbox {
          handoffOnly := handoffOnly + 1;
        }
      }
      assert r.members[..|r.members|] == r.members;
    }

    method Reservations(r: Reading) returns (reserved: set<OrderId>, users: seq<UserId>)
      ensures reserved == Reserved(r)
      ensures Set(users) == (set i | 0 <= i < |r.unpersisted| :: r.unpersisted[i].userId) + (set u | u in r.activeUsers)
    {
      reserved, users := {}, [];
      for i := 0 to |r.unpersisted|
        invariant reserved == set k | 0 <= k < i :: r.unpersisted[k].orderId
        invariant Set(users) == set k | 0 <= k < i :: r.unpersisted[k].userId
      {
        reserved := reserved + {r.unpersisted[i].orderId};
        users := AddUser(users, r.unpersisted[i].userId);
      }
      ghost var first := Set(users);
      for i := 0 to |r.activeUsers|
        invariant Set(users) == first + (set k | 0 <= k < i :: r.activeUsers[k])
      {
        users := AddUser(users, r.activeUsers[i]);
      }
    }
  }

  lemma NoMemberUsers(v: VoucherId, now: Time)
    ensures MemberUsers(v, [], now) == {}
  {
  }

  lemma MoreMemberUsers(v: VoucherId, members: seq<string>, i: nat, now: Time)
    requires i < |members|
    ensures MemberUsers(v, members[..i + 1], now)
         == MemberUsers(v, members[..i], now)
            + match MemberCodec.Parse(v, members[i], now) case None => {} case Some(e) => {e.userId}
  {
    hide MemberCodec.Parse;
    var more, less := members[..i + 1], members[..i];
    assert forall k | 0 <= k < i :: more[k] == less[k];
    assert more[i] == members[i];
  }

  // Adding to a LinkedHashSet.
  function AddUser(users: seq<UserId>, u: UserId): (r: seq<UserId>)
    ensures Set(r) == Set(users) + {u}
  {
    if u in users then users else users + [u]
  }

  // ---- Reading one state of the pipeline ----

  function MemberOf(p: Pipeline.Purchase): string {
    MemberCodec.BuildMember(p.orderId, p.userId, p.autoIssued)
  }

  // The reading is what the queries return in state s: the unpersisted rows, the users of active
  // orders, and the members of the voucher's handoff set, each once.
  ghost predicate ReadFrom(s: Pipeline.System, v: VoucherId, r: Reading, purchases: seq<Pipeline.Purchase>) {
    && v in s.db.stock && r.stock == s.db.stock[v] && r.outbox == s.table.rows.Keys
    && (forall i | 0 <= i < |r.unpersisted| ::
          r.unpersisted[i].orderId in Pipeline.Unpersisted(s, v)
          && r.unpersisted[i].userId == s.table.rows[r.unpersisted[i].orderId].userId)
    && (forall o | o in Pipeline.Unpersisted(s, v) :: exists i ::
        0 <= i < |r.unpersisted| && r.unpersisted[i].orderId == o)
    && (set u | u in r.activeUsers) == Pipeline.ActiveUsers(s.db.book, v)
    && |r.members| == |purchases|
    && (forall i | 0 <= i < |purchases| :: r.members[i] == MemberOf(purchases[i]) && purchases[i].voucherId == v
          && IsLong(purchases[i].orderId) && IsLong(purchases[i].userId))
    && (forall i, j | 0 <= i < j < |purchases| :: purchases[i] != purchases[j])
    && (forall p :: p in purchases <==> p in s.redis.handoff && p.voucherId == v)
  }

  // The purchases whose reservation nothing but the handoff set knows of.
  function OnlyHere(r: Reading, purchases: seq<Pipeline.Purchase>): set<Pipeline.Purchase> {
    set p | p in purchases && p.orderId !in Reserved(r) && p.orderId !in r.outbox
  }

  lemma OnlyHereOfMore(r: Reading, purchases: seq<Pipeline.Purchase>, n: nat)
    requires |purchases| == n + 1 && purchases[n] !in purchases[..n]
    ensures |OnlyHere(r, purchases)|
         == |OnlyHere(r, purchases[..n])|
            + if purchases[n].orderId !in Reserved(r) && purchases[n].orderId !in r.outbox then 1 else 0
  {
    hide Reserved;
    var p := purchases[n];
    assert purchases == purchases[..n] + [p];
    assert OnlyHere(r, purchases)
        == OnlyHere(r, purchases[..n]) + if p.orderId !in Reserved(r) && p.orderId !in r.outbox then {p} else {};
  }

  lemma {:induction false} CountIsSize(v: VoucherId, r: Reading, purchases: seq<Pipeline.Purchase>, now: Time)
    requires forall i | 0 <= i < |purchases| ::
               purchases[i].voucherId == v && IsLong(purchases[i].orderId) && IsLong(purchases[i].userId)
    requires forall i, j | 0 <= i < j < |purchases| :: purchases[i] != purchases[j]
    ensures CountOnlyInHandoff(v, r, Members(purchases), now) == |OnlyHere(r, purchases)|
    decreases |purchases|
  {
    hide MemberCodec.Parse, MemberCodec.BuildMember, Reserved, OnlyHere;
    if purchases == [] {
      NothingHere(r);
    } else {
      var n := |purchases| - 1;
      var p := purchases[n];
      CountIsSize(v, r, purchases[..n], now);
      assert Members(purchases)[..n] == Members(purchases[..n]);
      MemberCodec.RoundTrip(v, p.orderId, p.userId, p.autoIssued, now);
      OnlyHereOfMore(r, purchases, n);
    }
  }

  lemma NothingHere(r: Reading)
    ensures OnlyHere(r, []) == {}
  {
  }

  function Members(purchases: seq<Pipeline.Purchase>): seq<string> {
    seq(|purchases|, i requires 0 <= i < |purchases| => MemberOf(purchases[i]))
  }

  lemma ReservedIsUnpersisted(s: Pipeline.System, v: VoucherId, r: Reading, purchases: seq<Pipeline.Purchase>)
    requires ReadFrom(s, v, r, purchases)
    ensures Reserved(r) == Pipeline.Unpersisted(s, v)
    ensures (set i | 0 <= i < |r.unpersisted| :: r.unpersisted[i].userId)
         == (set o | o in Pipeline.Unpersisted(s, v) :: s.table.rows[o].userId)
  {
    forall o | o in Pipeline.Unpersisted(s, v)
      ensures o in Reserved(r) && s.table.rows[o].userId in (set i | 0 <= i < |r.unpersisted| :: r.unpersisted[i].userId)
    {
      var i :| 0 <= i < |r.unpersisted| && r.unpersisted[i].orderId == o;
      assert r.unpersisted[i].userId == s.table.rows[o].userId;
    }
  }

  lemma MemberUsersAreBuyers(v: VoucherId, purchases: seq<Pipeline.Purchase>, now: Time)
    requires forall i | 0 <= i < |purchases| ::
               purchases[i].voucherId == v && IsLong(purchases[i].orderId) && IsLong(purchases[i].userId)
    ensures MemberUsers(v, Members(purchases), now) == set p | p in purchases :: p.userId
  {
    var members := Members(purchases);
    forall i | 0 <= i < |members|
      ensures MemberCodec.Parse(v, members[i], now).Some?
          && MemberCodec.Parse(v, members[i], now).value.userId == purchases[i].userId
    {
      MemberCodec.RoundTrip(v, purchases[i].orderId, purchases[i].userId, purchases[i].autoIssued, now);
    }
    hide MemberCodec.Parse;
    forall u | u in (set p | p in purchases :: p.userId) ensures u in MemberUsers(v, members, now) {
      var p :| p in purchases && p.userId == u;
      var i :| 0 <= i < |purchases| && purchases[i] == p;
      assert MemberCodec.Parse(v, members[i], now).value.userId == u;
    }
  }

  lemma ReadsOfOneState(s: Pipeline.System, v: VoucherId, r: Reading, purchases: seq<Pipeline.Purchase>, now: Time)
    requires ReadFrom(s, v, r, purchases)
    ensures Expected(v, r, now) == Pipeline.ExpectedStock(s, v) && Buyers(v, r, now) == Pipeline.RebuiltUsers(s, v)
  {
    ReservedIsUnpersisted(s, v, r, purchases);
    assert r.members == Members(purchases);
    CountIsSize(v, r, purchases, now);
    MemberUsersAreBuyers(v, purchases, now);
    hide MemberCodec.Parse, MemberCodec.BuildMember, CountOnlyInHandoff, Pipeline.Unpersisted;
    assert OnlyHere(r, purchases) == Pipeline.HandoffOnly(s, v);
    assert (set p | p in purchases :: p.userId) == (set p | p in s.redis.handoff && p.voucherId == v :: p.userId);
  }

  /** Read from one reachable state, the stock to write is the stock that is there without what transactions
      under way have put there, and the buyers to write are the ones the pipeline's own account names. */
  lemma HealthyStateStays(steps: seq<Pipeline.Step>, v: VoucherId, r: Reading, purchases: seq<Pipeline.Purchase>,
      now: Time)
    requires var s := Pipeline.Run(Pipeline.Initial(), steps); ReadFrom(s, v, r, purchases)
    ensures var s := Pipeline.Run(Pipeline.Initial(), steps);
            && (v !in s.adrift ==>
                  && v in s.redis.stock
                  && var left := s.redis.stock[v] - Pipeline.Ahead(s.transactions, v);
                  Expected(v, r, now) == if left < 0 then 0 else left)
            && Buyers(v, r, now) == Pipeline.RebuiltUsers(s, v)
  {
    hide Pipeline.Inv, Pipeline.Run, Expected, Buyers, Pipeline.ExpectedStock, Pipeline.RebuiltUsers, Pipeline.Ahead;
    var s := Pipeline.Run(Pipeline.Initial(), steps);
    PipelineInvariant.InitialHolds();
    PipelineInvariant.RunKeeps(Pipeline.Initial(), steps);
    ReadsOfOneState(s, v, r, purchases, now);
    if v !in s.adrift {
      PipelineInvariant.ReconcileFindsStock(s, v);
    }
  }
}
