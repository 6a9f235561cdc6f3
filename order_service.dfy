/**
 * The order lifecycle: create or re-queue an order, look it up, list a user's
 * orders, and end it by cancel, finish or settlement. The caller's user id
 * stands for the one the token carries; `now` is the current time.
 */
module OrderService {
  import opened Common
  import opened Entities
  import opened Seqs
  import opened OrderCacheService
  import opened ChargingStationSlotService
  import opened QueueService
  import opened Repositories
  import opened ChargingStationService

  /** OrderUpsertRequest; `id` None asks for a new order. */
  datatype OrderRequest = OrderRequest(id: Option<string>, mode: int, chargeAmount: real)

  /** The queue-number prefix of a mode: F for fast, T for slow. */
  function QueueNoPrefix(mode: int): (p: string)
    ensures p == "F" <==> GetQueueKey(mode) == FAST_QUEUE_KEY
    ensures p == "F" || p == "T"
  {
    if mode == FAST then "F" else "T"
  }

  /**
   * upsertOrder. A new order (under the caller-supplied fresh id) is waiting and
   * belongs to the caller; an existing one must be cached and the caller's, and
   * leaves its old queue first. Either way it takes the request's mode and
   * amount, a fresh number in its mode's queue, goes to that queue's tail and is
   * cached.
   */
  method UpsertOrder(req: OrderRequest, userId: int, newId: string, now: int,
                     queues: WaitingQueues, cache: OrderCache)
    returns (r: Result<Order>)
    requires cache.Valid()
    modifies queues, cache
    ensures cache.Valid()
    ensures r.Err? ==> cache.orders == old(cache.orders) && queues.fast == old(queues.fast) && queues.slow == old(queues.slow)
    ensures req.id.None? ==>
      var prefix := QueueNoPrefix(req.mode);
      var o := Order(newId, userId, None, req.mode, WAITING, req.chargeAmount,
        Some(NextQueueNo(prefix, MaxSuffix(old(queues.Members(req.mode)), old(cache.orders), prefix))),
        None, Some(now), None, None);
      && r == Ok(o)
      && cache.orders == old(cache.orders)[newId := o]
      && queues.Members(req.mode) == old(queues.Members(req.mode)) + [newId]
      && queues.Members(OtherMode(req.mode)) == old(queues.Members(OtherMode(req.mode)))
    ensures req.id.Some? && req.id.value !in old(cache.orders) ==> r == Err(NotFound)
    ensures req.id.Some? && req.id.value in old(cache.orders) && old(cache.orders)[req.id.value].userId != userId ==>
      r == Err(Forbidden)
    ensures req.id.Some? && req.id.value in old(cache.orders) && old(cache.orders)[req.id.value].userId == userId ==>
      var id := req.id.value;
      var o0 := old(cache.orders)[id];
      var prefix := QueueNoPrefix(req.mode);
      var sameQueue := GetQueueKey(o0.mode) == GetQueueKey(req.mode);
      var before := if sameQueue then RemoveAll(old(queues.Members(req.mode)), id) else old(queues.Members(req.mode));
      var o := o0.(mode := req.mode, chargeAmount := req.chargeAmount,
        queueNo := Some(NextQueueNo(prefix, MaxSuffix(before, old(cache.orders), prefix))));
      && r == Ok(o)
      && cache.orders == old(cache.orders)[id := o]
      && queues.Members(req.mode) == before + [id]
      && queues.Members(OtherMode(req.mode)) ==
           if sameQueue then old(queues.Members(OtherMode(req.mode))) else RemoveAll(old(queues.Members(o0.mode)), id)
  {
    var order: Order;
    if req.id.None? {
      order := Order(newId, userId, None, req.mode, WAITING, req.chargeAmount, None, None, Some(now), None, None);
    } else {
      var cached := cache.GetOrder(req.id);
      if cached.None? {
        return Err(NotFound);
      }
      if cached.value.userId != userId {
        return Err(Forbidden);
      }
      order := cached.value;
      queues.RemoveOrderFromQueueWithLock(order.mode, order.id);
    }
    order := order.(mode := req.mode, chargeAmount := req.chargeAmount);
    var queueNo := queues.AssignQueueNoWithLock(order.mode, QueueNoPrefix(order.mode), cache);
    order := order.(queueNo := Some(queueNo));
    queues.AddOrderToQueueWithLock(order.mode, order.id);
    cache.SaveOrder(Some(order));
    r := Ok(order);
  }

  /** A re-queued order is in its new mode's queue exactly once. */
  lemma RequeuedOnce(queue: seq<string>, id: string)
    ensures multiset(RemoveAll(queue, id) + [id])[id] == 1
  {
  }

  /** getOrder: the cached copy first, then the database; only the owner may read it. */
  function GetOrder(orderId: string, userId: int, cache: OrderCache, repo: OrderRepository): (r: Result<Order>)
    reads cache, repo
    ensures r == Err(NotFound) <==> orderId !in cache.orders && orderId !in repo.orders
    ensures r.Ok? ==> r.value.userId == userId
    ensures r.Ok? && orderId in cache.orders ==> r.value == cache.orders[orderId]
    ensures r.Ok? && orderId !in cache.orders ==> r.value == repo.orders[orderId]
    ensures r == Err(Forbidden) <==>
      (orderId in cache.orders && cache.orders[orderId].userId != userId)
      || (orderId !in cache.orders && orderId in repo.orders && repo.orders[orderId].userId != userId)
  {
    var cached := cache.GetOrder(Some(orderId));
    var order := if cached.Some? then cached else repo.FindById(orderId);
    if order.None? then Err(NotFound)
    else if order.value.userId != userId then Err(Forbidden)
    else Ok(order.value)
  }

  /** The orders of a user kept in an id-keyed map. */
  ghost function UserPart(orders: map<string, Order>, userId: int): (m: map<string, Order>)
    ensures forall id :: id in m <==> id in orders && orders[id].userId == userId
    ensures forall id :: id in m ==> m[id] == orders[id]
  {
    map id | id in orders && orders[id].userId == userId :: orders[id]
  }

  /** The merged listing: the user's database orders, each replaced by the cached copy when the cache has one of theirs. */
  ghost function MergedByUser(db: map<string, Order>, cached: map<string, Order>, userId: int): map<string, Order> {
    UserPart(db, userId) + UserPart(cached, userId)
  }

  /** The merged listing keeps every order under its own id and holds only the user's orders. */
  lemma MergedByUserFacts(db: map<string, Order>, cached: map<string, Order>, userId: int)
    requires KeyedById(db) && KeyedById(cached)
    ensures KeyedById(MergedByUser(db, cached, userId))
    ensures forall o :: o in MergedByUser(db, cached, userId).Values ==> o.userId == userId
  {
    var m := MergedByUser(db, cached, userId);
    forall o | o in m.Values
      ensures o.userId == userId
    {
      var k :| k in m && m[k] == o;
    }
  }

  /** Lists exactly the orders of an id-keyed map, as a scan result does. */
  ghost predicate Lists(os: seq<Order>, part: map<string, Order>) {
    && KeyedById(part)
    && (forall o :: o in os ==> o.id in part && part[o.id] == o)
    && (forall k :: k in part ==> part[k] in os)
  }

  /** A scan of a user's orders lists that user's part of the map. */
  lemma ScanListsUserPart(orders: map<string, Order>, userId: int, os: seq<Order>)
    requires KeyedById(orders)
    requires forall o :: o in os <==> o in orders.Values && o.userId == userId
    ensures Lists(os, UserPart(orders, userId))
  {
    var part := UserPart(orders, userId);
    forall k | k in part
      ensures part[k] in os
    {
      assert orders[k] in orders.Values;
    }
  }

  /** Puts a listing into a map by id, one order after the other: the listed orders override. */
  method PutOrders(base: map<string, Order>, os: seq<Order>, ghost part: map<string, Order>)
    returns (m: map<string, Order>)
    requires Lists(os, part)
    ensures m == base + part
  {
    m := base;
    ghost var seen: set<string> := {};
    var i := 0;
    while i < |os|
      invariant 0 <= i <= |os|
      invariant forall k :: k in m <==> k in base || k in seen
      invariant forall k :: k in seen ==> k in part && m[k] == part[k]
      invariant forall k :: k in m && k !in seen ==> m[k] == base[k]
      invariant forall j :: 0 <= j < i ==> os[j].id in seen
    {
      m := m[os[i].id := os[i]];
      seen := seen + {os[i].id};
      i := i + 1;
    }
    forall k | k in part
      ensures k in seen
    {
      var j :| 0 <= j < |os| && os[j] == part[k];
    }
  }

  /**
   * getAllOrdersByUser: the database orders then the cached ones are put into
   * a map by id, so a cached order overrides the database copy; the result is
   * the map's values, one order per id.
   */
  method GetAllOrdersByUser(userId: int, cache: OrderCache, repo: OrderRepository) returns (result: seq<Order>)
    requires cache.Valid() && repo.Valid()
    ensures forall o :: o in result <==> o in MergedByUser(repo.orders, cache.orders, userId).Values
    ensures forall i, j :: 0 <= i < j < |result| ==> result[i].id != result[j].id
  {
    var dbOrders := repo.FindByUserId(userId);
    var cachedOrders := cache.GetAllOrdersByUser(userId);
    ghost var dbPart := UserPart(repo.orders, userId);
    ghost var cachedPart := UserPart(cache.orders, userId);
    ScanListsUserPart(repo.orders, userId, dbOrders);
    ScanListsUserPart(cache.orders, userId, cachedOrders);
    var orderMap := PutOrders(map[], dbOrders, dbPart);
    assert orderMap == dbPart;
    orderMap := PutOrders(orderMap, cachedOrders, cachedPart);
    assert orderMap == MergedByUser(repo.orders, cache.orders, userId);
    MergedByUserFacts(repo.orders, cache.orders, userId);
    result := OrdersOfUser(orderMap, userId);
  }

  /** The slot-queue removal of a cancel: removes the first occurrence, never fails. */
  function CancelSlotUpdater(orderId: string, slot: Slot): (r: Result<Slot>)
    ensures r.Ok? && r.value.status == slot.status && r.value.waitingTime == slot.waitingTime
    ensures slot.queue.Some? ==> r.value.queue == Some(RemoveFirst(slot.queue.value, orderId))
    ensures slot.queue.None? ==> r.value.queue == None
  {
    if slot.queue.Some? then Ok(slot.(queue := Some(RemoveFirst(slot.queue.value, orderId)))) else Ok(slot)
  }

  /**
   * The slot update of a settlement: the order leaves the slot queue, and a
   * status present becomes idle with the order counted in. Reading the charge
   * duration of an order without accruals fails (NullValue) and nothing is written.
   */
  function SettleSlotUpdater(orderId: string, order: Order, slot: Slot): (r: Result<Slot>)
    ensures slot.status.Some? && order.accrual.None? ==> r == Err(NullValue)
    ensures slot.status.None? ==> r.Ok? && r.value.status == None
    ensures r.Ok? ==> r.value.waitingTime == slot.waitingTime
    ensures r.Ok? ==> r.value.queue == if slot.queue.Some? then Some(RemoveFirst(slot.queue.value, orderId)) else None
    ensures r.Ok? && slot.status.Some? ==>
      var st := slot.status.value;
      var a := order.accrual.value;
      r.value.status == Some(StationStatus(IDLE,
        Some(st.currentChargeCount.GetOr(0) + 1),
        Some(st.currentChargeTime.GetOr(0) + a.chargeDuration),
        Some(st.currentChargeAmount.GetOr(0.0) + a.actualCharge)))
  {
    var queue := if slot.queue.Some? then Some(RemoveFirst(slot.queue.value, orderId)) else None;
    if slot.status.None? then Ok(slot.(queue := queue))
    else if order.accrual.None? then Err(NullValue)
    else
      var st := slot.status.value;
      var a := order.accrual.value;
      Ok(Slot(Some(StationStatus(IDLE,
        Some(st.currentChargeCount.GetOr(0) + 1),
        Some(st.currentChargeTime.GetOr(0) + a.chargeDuration),
        Some(st.currentChargeAmount.GetOr(0.0) + a.actualCharge))), queue, slot.waitingTime))
  }

  /** A user's totals after one more settled order. */
  function AddToUser(user: User, a: Accrual): (u: User)
    ensures u.userId == user.userId
    ensures u.totalChargeCount == user.totalChargeCount + 1
    ensures u.totalChargeAmount == user.totalChargeAmount + a.actualCharge
    ensures u.totalChargeDuration == user.totalChargeDuration + a.chargeDuration
    ensures u.totalChargeFee == user.totalChargeFee + a.chargeFee
    ensures u.totalServiceFee == user.totalServiceFee + a.serviceFee
    ensures u.totalFee == user.totalFee + a.totalFee
  {
    User(user.userId,
      user.totalChargeCount + 1,
      user.totalChargeAmount + a.actualCharge,
      user.totalChargeDuration + a.chargeDuration,
      user.totalChargeFee + a.chargeFee,
      user.totalServiceFee + a.serviceFee,
      user.totalFee + a.totalFee)
  }

  /** A user's totals after a run of settled orders, in order. */
  function UserAfter(user: User, accs: seq<Accrual>): User {
    if accs == [] then user else AddToUser(UserAfter(user, accs[..|accs| - 1]), accs[|accs| - 1])
  }

  /** The user's totals count each settled order once and add exactly what they accrued. */
  lemma {:induction false} UserAfterTotals(user: User, accs: seq<Accrual>)
    ensures var u := UserAfter(user, accs);
            var s := SumAccruals(accs);
            && u.userId == user.userId
            && u.totalChargeCount == user.totalChargeCount + |accs|
            && u.totalChargeAmount == user.totalChargeAmount + s.actualCharge
            && u.totalChargeDuration == user.totalChargeDuration + s.chargeDuration
            && u.totalChargeFee == user.totalChargeFee + s.chargeFee
            && u.totalServiceFee == user.totalServiceFee + s.serviceFee
            && u.totalFee == user.totalFee + s.totalFee
  {
    if accs != [] {
      UserAfterTotals(user, accs[..|accs| - 1]);
    }
  }

  /** The persisted form of a settled order. */
  function Settled(order: Order, now: int): (o: Order)
    ensures o.id == order.id && o.status == FINISHED && o.stopTime == Some(now) && o.accrual == order.accrual
  {
    order.(status := FINISHED, stopTime := Some(now))
  }

  /** Whether the settlement's slot update throws: the order's station has a slot with a status and the order no accruals. */
  function SlotUpdateFails(order: Order, slots: map<int, Slot>): bool {
    order.stationId.Some? && order.stationId.value in slots && slots[order.stationId.value].status.Some? && order.accrual.None?
  }

  /**
   * What settleOrder does, step by step: the order's waiting-queue entry and
   * slot entry go first; then, unless a step fails, the user is credited, the
   * order leaves the cache and is persisted finished, and the station's report
   * takes it in. A failing step ends the settlement with the steps before it done.
   */
  twostate predicate SettleEffect(orderId: string, now: int, new r: Result<Order>,
                                  queues: WaitingQueues, cache: OrderCache, slots: SlotStore,
                                  users: UserRepository, orderRepo: OrderRepository, stationRepo: StationRepository)
    reads queues, cache, slots, users, orderRepo, stationRepo
  {
    if orderId !in old(cache.orders) then
      && r == Err(NotFound)
      && queues.fast == old(queues.fast) && queues.slow == old(queues.slow)
      && cache.orders == old(cache.orders) && slots.slots == old(slots.slots)
      && users.users == old(users.users) && orderRepo.orders == old(orderRepo.orders)
      && stationRepo.stations == old(stationRepo.stations)
    else
      var o := old(cache.orders)[orderId];
      && queues.Members(o.mode) == RemoveAll(old(queues.Members(o.mode)), orderId)
      && queues.Members(OtherMode(o.mode)) == old(queues.Members(OtherMode(o.mode)))
      && slots.slots == (if o.stationId.Some?
                         then ApplyUpdate(old(slots.slots), o.stationId.value, s => SettleSlotUpdater(orderId, o, s), true)
                         else old(slots.slots))
      && if SlotUpdateFails(o, old(slots.slots)) || o.userId !in old(users.users) || o.accrual.None? then
           && r == Err(if SlotUpdateFails(o, old(slots.slots)) || o.userId in old(users.users) then NullValue else NotFound)
           && cache.orders == old(cache.orders) && users.users == old(users.users)
           && orderRepo.orders == old(orderRepo.orders) && stationRepo.stations == old(stationRepo.stations)
         else
           && users.users == old(users.users)[o.userId := AddToUser(old(users.users)[o.userId], o.accrual.value)]
           && cache.orders == old(cache.orders) - {orderId}
           && orderRepo.orders == old(orderRepo.orders)[orderId := Settled(o, now)]
           && if o.stationId.None? then
                r == Err(NullValue) && stationRepo.stations == old(stationRepo.stations)
              else if o.stationId.value !in old(stationRepo.stations) then
                r == Err(NotFound) && stationRepo.stations == old(stationRepo.stations)
              else
                var cs := old(stationRepo.stations)[o.stationId.value];
                && r == Ok(Settled(o, now))
                && stationRepo.stations == old(stationRepo.stations)[o.stationId.value :=
                     cs.(report := AddToReport(cs.report, o.accrual.value, now))]
  }

  /** settleOrder. */
  method SettleOrder(orderId: string, now: int,
                     queues: WaitingQueues, cache: OrderCache, slots: SlotStore,
                     users: UserRepository, orderRepo: OrderRepository, stationRepo: StationRepository)
    returns (r: Result<Order>)
    requires cache.Valid() && users.Valid() && orderRepo.Valid() && stationRepo.Valid()
    modifies queues, cache, slots, users, orderRepo, stationRepo
    ensures cache.Valid() && users.Valid() && orderRepo.Valid() && stationRepo.Valid()
    ensures SettleEffect(orderId, now, r, queues, cache, slots, users, orderRepo, stationRepo)
    ensures r.Ok? ==> orderId !in cache.orders
  {
    var cached := cache.GetOrder(Some(orderId));
    if cached.None? {
      return Err(NotFound);
    }
    var order := cached.value;
    queues.RemoveOrderFromQueueWithLock(order.mode, orderId);
    var stationId := order.stationId;
    if stationId.Some? {
      var updated := slots.UpdateSlotWithLock(stationId.value, s => SettleSlotUpdater(orderId, order, s), true);
      if updated.Err? {
        return Err(updated.error);
      }
    }
    var settled := Settled(order, now);
    var user := users.FindById(order.userId);
    if user.None? {
      return Err(NotFound);
    }
    if order.accrual.None? {
      return Err(NullValue);
    }
    users.Save(AddToUser(user.value, order.accrual.value));
    cache.DeleteOrder(Some(orderId));
    orderRepo.Save(settled);
    var reported := UpdateReportInfo(stationId, settled, stationRepo, now);
    if reported.Err? {
      return Err(reported.error);
    }
    r := Ok(settled);
  }

  /** A settled order is no longer cached, so settling it again is NotFound and credits nobody twice. */
  method SettleTwice(orderId: string, now: int,
                     queues: WaitingQueues, cache: OrderCache, slots: SlotStore,
                     users: UserRepository, orderRepo: OrderRepository, stationRepo: StationRepository)
    returns (first: Result<Order>, second: Result<Order>)
    requires cache.Valid() && users.Valid() && orderRepo.Valid() && stationRepo.Valid()
    modifies queues, cache, slots, users, orderRepo, stationRepo
    ensures first.Ok? ==> second == Err(NotFound)
    ensures first.Ok? ==>
      && orderId in old(cache.orders)
      && var o := old(cache.orders)[orderId];
      && o.userId in old(users.users) && o.accrual.Some?
      &&
      users.users == old(users.users)[o.userId := AddToUser(old(users.users)[o.userId], o.accrual.value)]
  {
    first := SettleOrder(orderId, now, queues, cache, slots, users, orderRepo, stationRepo);
    ghost var usersAfterFirst := users.users;
    second := SettleOrder(orderId, now, queues, cache, slots, users, orderRepo, stationRepo);
    assert users.users == usersAfterFirst;
  }

  /** cancelOrder: only a queued or waiting order of the caller; one with progress is settled instead. */
  method CancelOrder(orderId: string, userId: int, now: int,
                     queues: WaitingQueues, cache: OrderCache, slots: SlotStore,
                     users: UserRepository, orderRepo: OrderRepository, stationRepo: StationRepository)
    returns (r: Result<Order>)
    requires cache.Valid() && users.Valid() && orderRepo.Valid() && stationRepo.Valid()
    modifies queues, cache, slots, users, orderRepo, stationRepo
    ensures cache.Valid() && users.Valid() && orderRepo.Valid() && stationRepo.Valid()
    ensures orderId !in old(cache.orders) ==>
      r == Err(NotFound) && unchanged(queues, cache, slots, users, orderRepo, stationRepo)
    ensures orderId in old(cache.orders) ==>
      var o := old(cache.orders)[orderId];
      if o.userId != userId then r == Err(Forbidden) && unchanged(queues, cache, slots, users, orderRepo, stationRepo)
      else if o.status != QUEUED && o.status != WAITING then r == Err(BadState) && unchanged(queues, cache, slots, users, orderRepo, stationRepo)
      else if o.accrual.Some? && o.accrual.value.actualCharge >= 0.0 then
        SettleEffect(orderId, now, r, queues, cache, slots, users, orderRepo, stationRepo)
      else
        && r == Ok(o.(status := CANCELLED))
        && queues.Members(o.mode) == RemoveAll(old(queues.Members(o.mode)), orderId)
        && queues.Members(OtherMode(o.mode)) == old(queues.Members(OtherMode(o.mode)))
        && slots.slots == (if o.stationId.Some?
                           then ApplyUpdate(old(slots.slots), o.stationId.value, s => CancelSlotUpdater(orderId, s), true)
                           else old(slots.slots))
        && orderRepo.orders == old(orderRepo.orders)[orderId := o.(status := CANCELLED)]
        && cache.orders == old(cache.orders) - {orderId}
        && users.users == old(users.users) && stationRepo.stations == old(stationRepo.stations)
  {
    var cached := cache.GetOrder(Some(orderId));
    if cached.None? {
      return Err(NotFound);
    }
    var order := cached.value;
    if order.userId != userId {
      return Err(Forbidden);
    }
    if order.status != QUEUED && order.status != WAITING {
      return Err(BadState);
    }
    if order.accrual.Some? && order.accrual.value.actualCharge >= 0.0 {
      r := SettleOrder(orderId, now, queues, cache, slots, users, orderRepo, stationRepo);
      return;
    }
    queues.RemoveOrderFromQueueWithLock(order.mode, order.id);
    if order.stationId.Some? {
      var _ := slots.UpdateSlotWithLock(order.stationId.value, s => CancelSlotUpdater(orderId, s), true);
    }
    order := order.(status := CANCELLED);
    orderRepo.Save(order);
    cache.DeleteOrder(Some(orderId));
    r := Ok(order);
  }

  /** finishOrder: only a charging order of the caller, which is then settled. */
  method FinishOrder(orderId: string, userId: int, now: int,
                     queues: WaitingQueues, cache: OrderCache, slots: SlotStore,
                     users: UserRepository, orderRepo: OrderRepository, stationRepo: StationRepository)
    returns (r: Result<Order>)
    requires cache.Valid() && users.Valid() && orderRepo.Valid() && stationRepo.Valid()
    modifies queues, cache, slots, users, orderRepo, stationRepo
    ensures cache.Valid() && users.Valid() && orderRepo.Valid() && stationRepo.Valid()
    ensures orderId !in old(cache.orders) ==>
      r == Err(NotFound) && unchanged(queues, cache, slots, users, orderRepo, stationRepo)
    ensures orderId in old(cache.orders) ==>
      var o := old(cache.orders)[orderId];
      if o.userId != userId then r == Err(Forbidden) && unchanged(queues, cache, slots, users, orderRepo, stationRepo)
      else if o.status != CHARGING then r == Err(BadState) && unchanged(queues, cache, slots, users, orderRepo, stationRepo)
      else SettleEffect(orderId, now, r, queues, cache, slots, users, orderRepo, stationRepo)
  {
    var cached := cache.GetOrder(Some(orderId));
    if cached.None? {
      return Err(NotFound);
    }
    if cached.value.userId != userId {
      return Err(Forbidden);
    }
    if cached.value.status != CHARGING {
      return Err(BadState);
    }
    r := SettleOrder(orderId, now, queues, cache, slots, users, orderRepo, stationRepo);
  }
}
