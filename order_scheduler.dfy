/**
 * The admission pass run every second: each waiting order of a mode goes to
 * the eligible station of that mode whose slot has the least waiting time.
 * A pass is specified by functions over the slots, the cached orders and the
 * waiting queue (`AssignAll`); the methods run it on the stores.
 */
module OrderScheduler {
  import opened Common
  import opened Entities
  import opened Seqs
  import opened OrderCacheService
  import opened ChargingStationSlotService
  import opened QueueService
  import opened Repositories
  import opened ChargingStationService

  // ---------------------------------------------------------------- calcWaitingTime

  /** The least integer at or above x / p: BigDecimal division to scale 0, rounding up. */
  function CeilDiv(x: real, p: Power): (n: int)
    ensures x / p <= n as real < x / p + 1.0
  {
    var q := x / p;
    if q.Floor as real == q then q.Floor else q.Floor + 1
  }

  /** The energy an order still needs; no accruals yet counts as nothing delivered. */
  function Remaining(o: Order): real {
    o.chargeAmount - if o.accrual.Some? then o.accrual.value.actualCharge else 0.0
  }

  /** The seconds one queued id adds: none for a missing order or one with nothing left to charge. */
  function OrderSeconds(id: string, orders: map<string, Order>, power: Power): (n: int)
    ensures n >= 0
    ensures n > 0 <==> id in orders && Remaining(orders[id]) > 0.0
  {
    if id !in orders || Remaining(orders[id]) <= 0.0 then 0 else CeilDiv(Remaining(orders[id]), power)
  }

  /** The waiting time of a slot queue: the seconds of its orders, summed in queue order. */
  function WaitingTime(queue: seq<string>, orders: map<string, Order>, power: Power): (t: int)
    ensures t >= 0
    ensures queue == [] ==> t == 0
  {
    if queue == [] then 0
    else WaitingTime(queue[..|queue| - 1], orders, power) + OrderSeconds(queue[|queue| - 1], orders, power)
  }

  /** calcWaitingTime: no slot, no queue or an empty queue waits nothing. */
  function CalcWaitingTime(slot: Option<Slot>, orders: map<string, Order>, power: Power): (t: int)
    ensures t >= 0
    ensures slot.None? || slot.value.queue.None? ==> t == 0
  {
    if slot.None? || slot.value.queue.None? then 0 else WaitingTime(slot.value.queue.value, orders, power)
  }

  /** Appending an order adds exactly its seconds. */
  lemma WaitingTimeAppend(queue: seq<string>, id: string, orders: map<string, Order>, power: Power)
    ensures WaitingTime(queue + [id], orders, power) == WaitingTime(queue, orders, power) + OrderSeconds(id, orders, power)
  {
    assert (queue + [id])[..|queue|] == queue;
  }

  /** The waiting time is zero exactly when no queued order has anything left to charge, and covers each order's seconds. */
  lemma {:induction false} WaitingTimeBounds(queue: seq<string>, orders: map<string, Order>, power: Power)
    ensures WaitingTime(queue, orders, power) == 0 <==> forall i :: 0 <= i < |queue| ==> OrderSeconds(queue[i], orders, power) == 0
    ensures forall i :: 0 <= i < |queue| ==> OrderSeconds(queue[i], orders, power) <= WaitingTime(queue, orders, power)
  {
    if queue != [] {
      var init := queue[..|queue| - 1];
      WaitingTimeBounds(init, orders, power);
      assert forall i :: 0 <= i < |init| ==> queue[i] == init[i];
    }
  }

  // ---------------------------------------------------------------- selection

  /** The slot of a station, if one is stored. */
  function SlotAt(slots: map<int, Slot>, id: int): (r: Option<Slot>)
    ensures r.Some? <==> id in slots
    ensures r.Some? ==> r.value == slots[id]
  {
    if id in slots then Some(slots[id]) else None
  }

  /**
   * Whether a station can take an order of the mode: same mode, a slot with a
   * status that is neither closed nor faulted, a queue, and room in it when a
   * maximum queue length is set.
   */
  predicate IsCandidate(id: int, mode: int, stations: map<int, ChargingStation>, slots: map<int, Slot>) {
    && id in stations && stations[id].mode == mode
    && id in slots && slots[id].status.Some?
    && slots[id].status.value.code != CLOSED && slots[id].status.value.code != FAULTED
    && slots[id].queue.Some?
    && (stations[id].maxQueueLength.None? || |slots[id].queue.value| < stations[id].maxQueueLength.value)
  }

  /** A slot's waiting time, a missing one counting as 0. */
  function WaitOf(slot: Slot): int {
    slot.waitingTime.GetOr(0)
  }

  /** The chosen position in the station list and its waiting time. */
  datatype Pick = Pick(index: nat, wait: int)

  /** The scan over the station list: a candidate replaces the best so far only when it waits strictly less. */
  function Best(ids: seq<int>, mode: int, stations: map<int, ChargingStation>, slots: map<int, Slot>): (r: Option<Pick>)
    ensures r.Some? ==> r.value.index < |ids| && IsCandidate(ids[r.value.index], mode, stations, slots)
    ensures r.Some? ==> r.value.wait == WaitOf(slots[ids[r.value.index]])
  {
    if ids == [] then None
    else
      var prev := Best(ids[..|ids| - 1], mode, stations, slots);
      var id := ids[|ids| - 1];
      if IsCandidate(id, mode, stations, slots) && (prev.None? || WaitOf(slots[id]) < prev.value.wait)
      then Some(Pick(|ids| - 1, WaitOf(slots[id])))
      else prev
  }

  /**
   * There is a pick exactly when some station is a candidate; the pick waits no
   * longer than any candidate and strictly less than every candidate before it.
   */
  lemma {:induction false} BestIsFirstMinimum(ids: seq<int>, mode: int, stations: map<int, ChargingStation>, slots: map<int, Slot>)
    ensures Best(ids, mode, stations, slots).None? <==> forall j :: 0 <= j < |ids| ==> !IsCandidate(ids[j], mode, stations, slots)
    ensures Best(ids, mode, stations, slots).Some? ==>
      var p := Best(ids, mode, stations, slots).value;
      forall j :: 0 <= j < |ids| && IsCandidate(ids[j], mode, stations, slots) ==>
        WaitOf(slots[ids[j]]) >= p.wait && (j < p.index ==> WaitOf(slots[ids[j]]) > p.wait)
  {
    if ids != [] {
      var init := ids[..|ids| - 1];
      BestIsFirstMinimum(init, mode, stations, slots);
      assert forall j :: 0 <= j < |init| ==> ids[j] == init[j];
    }
  }

  // ---------------------------------------------------------------- slot initialisation

  /** One getOrInitSlot on a map of slots. */
  function InitOne(slots: map<int, Slot>, id: int): (r: map<int, Slot>)
    ensures id in r && r[id] == InitSlot(SlotAt(slots, id))
    ensures forall k :: k != id ==> SlotAt(r, k) == SlotAt(slots, k)
  {
    if NeedsInit(SlotAt(slots, id)) then slots[id := InitSlot(SlotAt(slots, id))]
    else
      InitSlotKeepsComplete(SlotAt(slots, id));
      slots
  }

  /** getOrInitSlot on each listed station in turn. */
  function InitAll(slots: map<int, Slot>, ids: seq<int>): map<int, Slot> {
    if ids == [] then slots else InitOne(InitAll(slots, ids[..|ids| - 1]), ids[|ids| - 1])
  }

  /** After the scan every listed station has its initialised slot, and the others are untouched. */
  lemma {:induction false} InitAllSlots(slots: map<int, Slot>, ids: seq<int>)
    ensures forall k :: k in ids ==> k in InitAll(slots, ids) && InitAll(slots, ids)[k] == InitSlot(SlotAt(slots, k))
    ensures forall k :: k !in ids ==> SlotAt(InitAll(slots, ids), k) == SlotAt(slots, k)
  {
    if ids != [] {
      var init := ids[..|ids| - 1];
      var last := ids[|ids| - 1];
      InitAllSlots(slots, init);
      InitSlotIdempotent(SlotAt(slots, last));
      if last !in init && !NeedsInit(SlotAt(slots, last)) {
        InitSlotKeepsComplete(SlotAt(slots, last));
      }
      forall k | k in ids
        ensures k in InitAll(slots, ids) && InitAll(slots, ids)[k] == InitSlot(SlotAt(slots, k))
      {
        if k != last {
          assert k in init;
        }
      }
    }
  }

  // ---------------------------------------------------------------- commit

  /**
   * The slot update of an admission: append the order unless it is queued
   * already, then recompute the waiting time of the grown queue. A slot without
   * a queue throws (NullValue) and nothing is written.
   */
  function CommitUpdater(orderId: string, orders: map<string, Order>, power: Power, slot: Slot): (r: Result<Slot>)
    ensures r.Err? <==> slot.queue.None?
    ensures r.Ok? ==> r.value.status == slot.status && r.value.queue.Some?
    ensures r.Ok? && orderId in slot.queue.value ==> r.value == slot
    ensures r.Ok? && orderId !in slot.queue.value ==>
      && r.value.queue.value == slot.queue.value + [orderId]
      && r.value.waitingTime == Some(WaitingTime(slot.queue.value, orders, power) + OrderSeconds(orderId, orders, power))
  {
    if slot.queue.None? then Err(NullValue)
    else if orderId in slot.queue.value then Ok(slot)
    else
      var queue := slot.queue.value + [orderId];
      WaitingTimeAppend(slot.queue.value, orderId, orders, power);
      Ok(slot.(queue := Some(queue), waitingTime := Some(WaitingTime(queue, orders, power))))
  }

  /** updateSlotWithLock of the commit on a map of slots. */
  function CommitAt(slots: map<int, Slot>, target: int, orderId: string, orders: map<string, Order>, power: Power): (r: map<int, Slot>)
    ensures r.Keys == slots.Keys
    ensures forall k :: k in slots && k != target ==> r[k] == slots[k]
    ensures target in slots && slots[target].queue.Some? ==> r[target].queue.Some? && orderId in r[target].queue.value
    ensures target in slots && slots[target].queue.None? ==> r == slots
  {
    if target in slots && CommitUpdater(orderId, orders, power, slots[target]).Ok?
    then slots[target := CommitUpdater(orderId, orders, power, slots[target]).value]
    else slots
  }

  // ---------------------------------------------------------------- the pass

  /** What an admission pass changes: the slots, the cached orders and the mode's waiting queue. */
  datatype SchedState = SchedState(slots: map<int, Slot>, orders: map<string, Order>, queue: seq<string>)

  /**
   * One pending id. A missing order is skipped. Otherwise every listed slot is
   * initialised, and if some station is a candidate the order joins the chosen
   * slot's queue, becomes queued at that station and leaves the waiting queue.
   */
  function AssignOne(st: SchedState, orderId: string, mode: int, ids: seq<int>, stations: map<int, ChargingStation>): SchedState {
    if orderId !in st.orders then st
    else
      var slots := InitAll(st.slots, ids);
      var pick := Best(ids, mode, stations, slots);
      if pick.None? then st.(slots := slots)
      else
        var target := ids[pick.value.index];
        var o := st.orders[orderId];
        SchedState(
          CommitAt(slots, target, orderId, st.orders, stations[target].power),
          st.orders[orderId := o.(status := QUEUED, stationId := Some(target))],
          RemoveAll(st.queue, orderId))
  }

  /** The pending ids of a mode, in queue order. */
  function AssignAll(st: SchedState, pending: seq<string>, mode: int, ids: seq<int>, stations: map<int, ChargingStation>): SchedState {
    if pending == [] then st
    else AssignOne(AssignAll(st, pending[..|pending| - 1], mode, ids, stations), pending[|pending| - 1], mode, ids, stations)
  }

  /**
   * An admitted order is queued at a candidate station with the least waiting
   * time, sits in that slot's queue and has left the waiting queue; an order no
   * station can take keeps its state and its place.
   */
  lemma AssignOneOutcome(st: SchedState, orderId: string, mode: int, ids: seq<int>, stations: map<int, ChargingStation>)
    requires orderId in st.orders
    ensures var slots := InitAll(st.slots, ids);
            var r := AssignOne(st, orderId, mode, ids, stations);
            match Best(ids, mode, stations, slots)
            case None =>
              && r.orders == st.orders && r.queue == st.queue
              && forall j :: 0 <= j < |ids| ==> !IsCandidate(ids[j], mode, stations, slots)
            case Some(p) =>
              var target := ids[p.index];
              && IsCandidate(target, mode, stations, slots)
              && (forall j :: 0 <= j < |ids| && IsCandidate(ids[j], mode, stations, slots) ==> WaitOf(slots[ids[j]]) >= p.wait)
              && r.orders[orderId].status == QUEUED && r.orders[orderId].stationId == Some(target)
              && r.orders[orderId].id == st.orders[orderId].id
              && orderId !in r.queue
              && target in r.slots && r.slots[target].queue.Some? && orderId in r.slots[target].queue.value
  {
    BestIsFirstMinimum(ids, mode, stations, InitAll(st.slots, ids));
  }

  /** Every slot queue holds each id at most once. */
  ghost predicate QueuesDistinct(slots: map<int, Slot>) {
    forall id :: id in slots && slots[id].queue.Some? ==> Distinct(slots[id].queue.value)
  }

  /** Every slot queue is empty or within its station's maximum queue length. */
  ghost predicate WithinCapacity(slots: map<int, Slot>, stations: map<int, ChargingStation>) {
    forall id :: id in slots && id in stations && stations[id].maxQueueLength.Some? && slots[id].queue.Some? ==>
      |slots[id].queue.value| == 0 || |slots[id].queue.value| <= stations[id].maxQueueLength.value
  }

  /** Initialising slots keeps both slot invariants. */
  lemma InitAllKeepsSlotInvariants(slots: map<int, Slot>, ids: seq<int>, stations: map<int, ChargingStation>)
    requires QueuesDistinct(slots) && WithinCapacity(slots, stations)
    ensures QueuesDistinct(InitAll(slots, ids)) && WithinCapacity(InitAll(slots, ids), stations)
  {
    InitAllSlots(slots, ids);
    var m := InitAll(slots, ids);
    forall id | id in m
      ensures m[id].queue.Some? ==> Distinct(m[id].queue.value)
      ensures id in stations && stations[id].maxQueueLength.Some? && m[id].queue.Some? ==>
        |m[id].queue.value| == 0 || |m[id].queue.value| <= stations[id].maxQueueLength.value
    {
      if id !in ids {
        assert SlotAt(m, id) == SlotAt(slots, id);
      }
    }
  }

  /** The commit keeps both slot invariants at a candidate: it appends only an absent id, and only to a slot with room. */
  lemma CommitAtKeepsSlotInvariants(slots: map<int, Slot>, target: int, orderId: string, orders: map<string, Order>,
                                    mode: int, stations: map<int, ChargingStation>)
    requires QueuesDistinct(slots) && WithinCapacity(slots, stations)
    requires IsCandidate(target, mode, stations, slots)
    ensures var r := CommitAt(slots, target, orderId, orders, stations[target].power);
            QueuesDistinct(r) && WithinCapacity(r, stations)
  {
  }

  /** One admission keeps both slot invariants. */
  lemma AssignOneKeepsSlotInvariants(st: SchedState, orderId: string, mode: int, ids: seq<int>, stations: map<int, ChargingStation>)
    requires QueuesDistinct(st.slots) && WithinCapacity(st.slots, stations)
    ensures var r := AssignOne(st, orderId, mode, ids, stations);
            QueuesDistinct(r.slots) && WithinCapacity(r.slots, stations)
  {
    if orderId in st.orders {
      InitAllKeepsSlotInvariants(st.slots, ids, stations);
      var slots := InitAll(st.slots, ids);
      var pick := Best(ids, mode, stations, slots);
      if pick.Some? {
        CommitAtKeepsSlotInvariants(slots, ids[pick.value.index], orderId, st.orders, mode, stations);
      }
    }
  }

  /** A whole pass keeps both slot invariants. */
  lemma {:induction false} AssignAllKeepsSlotInvariants(st: SchedState, pending: seq<string>, mode: int, ids: seq<int>, stations: map<int, ChargingStation>)
    requires QueuesDistinct(st.slots) && WithinCapacity(st.slots, stations)
    ensures var r := AssignAll(st, pending, mode, ids, stations);
            QueuesDistinct(r.slots) && WithinCapacity(r.slots, stations)
  {
    if pending != [] {
      var init := pending[..|pending| - 1];
      AssignAllKeepsSlotInvariants(st, init, mode, ids, stations);
      AssignOneKeepsSlotInvariants(AssignAll(st, init, mode, ids, stations), pending[|pending| - 1], mode, ids, stations);
    }
  }

  /**
   * A pass changes only the orders it was given, keeps the cache keyed by id,
   * and only removes ids from the waiting queue, never those it was not given.
   */
  lemma {:induction false} AssignAllFrame(st: SchedState, pending: seq<string>, mode: int, ids: seq<int>, stations: map<int, ChargingStation>)
    requires KeyedById(st.orders)
    ensures var r := AssignAll(st, pending, mode, ids, stations);
            && KeyedById(r.orders)
            && r.orders.Keys == st.orders.Keys
            && (forall id :: id in st.orders && id !in pending ==> r.orders[id] == st.orders[id])
            && (forall x :: x in r.queue ==> x in st.queue)
            && (forall x :: x in st.queue && x !in pending ==> x in r.queue)
  {
    if pending != [] {
      var init := pending[..|pending| - 1];
      AssignAllFrame(st, init, mode, ids, stations);
    }
  }

  // ---------------------------------------------------------------- the methods

  /**
   * The station scan of one order: every listed station's slot is
   * initialised through getChargingStationWithSlot, and the candidates are
   * compared by waiting time.
   */
  method SelectStation(mode: int, ids: seq<int>, repo: StationRepository, slots: SlotStore, now: int)
    returns (pick: Option<Pick>)
    requires forall id :: id in ids ==> id in repo.stations
    modifies slots
    ensures slots.slots == InitAll(old(slots.slots), ids)
    ensures pick == Best(ids, mode, repo.stations, slots.slots)
  {
    ghost var s0 := slots.slots;
    ghost var final := InitAll(s0, ids);
    InitAllSlots(s0, ids);
    pick := None;
    var i := 0;
    while i < |ids|
      invariant 0 <= i <= |ids|
      invariant slots.slots == InitAll(s0, ids[..i])
      invariant pick == Best(ids[..i], mode, repo.stations, final)
    {
      var id := ids[i];
      assert ids[..i + 1][..i] == ids[..i];
      InitAllSlots(s0, ids[..i]);
      var station := GetChargingStationWithSlot(id, repo, slots, now);
      assert slots.slots == InitAll(s0, ids[..i + 1]);
      InitAllSlots(s0, ids[..i + 1]);
      assert id in ids[..i + 1];
      var slot := slots.GetSlot(id);
      assert slot == Some(final[id]);
      var candidate := false;
      if station.Ok? && station.value.mode == mode && slot.Some? && slot.value.status.Some? {
        var code := slot.value.status.value.code;
        if code != CLOSED && code != FAULTED && slot.value.queue.Some? {
          InitSlotIdempotent(SlotAt(s0, id));
          var again := GetChargingStationWithSlot(id, repo, slots, now);
          var maxQueueLength := again.value.maxQueueLength;
          candidate := maxQueueLength.None? || |slot.value.queue.value| < maxQueueLength.value;
        }
      }
      assert candidate <==> IsCandidate(id, mode, repo.stations, final);
      if candidate {
        var waitingTime := WaitOf(slot.value);
        if pick.None? || waitingTime < pick.value.wait {
          pick := Some(Pick(i, waitingTime));
        }
      }
      i := i + 1;
    }
    assert ids[..|ids|] == ids;
  }

  /** One pending id of assignOrdersToSlot: skip a missing order, pick a station, commit. */
  method AssignStep(mode: int, orderId: string, ids: seq<int>,
                    queues: WaitingQueues, cache: OrderCache, slots: SlotStore, repo: StationRepository, now: int)
    requires cache.Valid()
    requires forall id :: id in ids ==> id in repo.stations
    modifies queues, cache, slots
    ensures cache.Valid()
    ensures SchedState(slots.slots, cache.orders, queues.Members(mode))
         == AssignOne(SchedState(old(slots.slots), old(cache.orders), old(queues.Members(mode))), orderId, mode, ids, repo.stations)
    ensures queues.Members(OtherMode(mode)) == old(queues.Members(OtherMode(mode)))
  {
    var order := cache.GetOrder(Some(orderId));
    if order.Some? {
      var pick := SelectStation(mode, ids, repo, slots, now);
      if pick.Some? {
        var target := ids[pick.value.index];
        var power := repo.stations[target].power;
        var orders := cache.orders;
        var _ := slots.UpdateSlotWithLock(target, s => CommitUpdater(orderId, orders, power, s), true);
        cache.SaveOrder(Some(order.value.(status := QUEUED, stationId := Some(target))));
        queues.RemoveOrderFromQueueWithLock(mode, orderId);
      }
    }
  }

  /** One mode of assignOrdersToSlot, on the pending ids read at the start of the pass. */
  method AssignMode(mode: int, pending: seq<string>, ids: seq<int>,
                    queues: WaitingQueues, cache: OrderCache, slots: SlotStore, repo: StationRepository, now: int)
    requires cache.Valid()
    requires forall id :: id in ids ==> id in repo.stations
    modifies queues, cache, slots
    ensures cache.Valid()
    ensures SchedState(slots.slots, cache.orders, queues.Members(mode))
         == AssignAll(SchedState(old(slots.slots), old(cache.orders), old(queues.Members(mode))), pending, mode, ids, repo.stations)
    ensures queues.Members(OtherMode(mode)) == old(queues.Members(OtherMode(mode)))
  {
    ghost var st0 := SchedState(slots.slots, cache.orders, queues.Members(mode));
    var i := 0;
    while i < |pending|
      invariant 0 <= i <= |pending|
      invariant cache.Valid()
      invariant SchedState(slots.slots, cache.orders, queues.Members(mode)) == AssignAll(st0, pending[..i], mode, ids, repo.stations)
      invariant queues.Members(OtherMode(mode)) == old(queues.Members(OtherMode(mode)))
    {
      assert pending[..i + 1][..i] == pending[..i];
      AssignStep(mode, pending[i], ids, queues, cache, slots, repo, now);
      i := i + 1;
    }
    assert pending[..|pending|] == pending;
  }

  /**
   * assignOrdersToSlot: the fast queue's pass, then the slow queue's, each over
   * the queue as it stood when its pass began and over all stations.
   */
  method AssignOrdersToSlot(queues: WaitingQueues, cache: OrderCache, slots: SlotStore, repo: StationRepository, now: int)
    requires cache.Valid() && repo.Valid()
    modifies queues, cache, slots
    ensures cache.Valid()
    ensures var fastPass := AssignAll(SchedState(old(slots.slots), old(cache.orders), old(queues.fast)),
                                      old(queues.fast), FAST, repo.ids, repo.stations);
            var slowPass := AssignAll(SchedState(fastPass.slots, fastPass.orders, old(queues.slow)),
                                      old(queues.slow), SLOW, repo.ids, repo.stations);
            && queues.fast == fastPass.queue && queues.slow == slowPass.queue
            && slots.slots == slowPass.slots && cache.orders == slowPass.orders
  {
    var modes := [FAST, SLOW];
    var m := 0;
    while m < |modes|
      invariant 0 <= m <= |modes|
      invariant cache.Valid()
      invariant m == 0 ==> queues.fast == old(queues.fast) && queues.slow == old(queues.slow)
                           && slots.slots == old(slots.slots) && cache.orders == old(cache.orders)
      invariant m == 1 ==>
        var fastPass := AssignAll(SchedState(old(slots.slots), old(cache.orders), old(queues.fast)),
                                  old(queues.fast), FAST, repo.ids, repo.stations);
        && queues.fast == fastPass.queue && queues.slow == old(queues.slow)
        && slots.slots == fastPass.slots && cache.orders == fastPass.orders
      invariant m == 2 ==>
        var fastPass := AssignAll(SchedState(old(slots.slots), old(cache.orders), old(queues.fast)),
                                  old(queues.fast), FAST, repo.ids, repo.stations);
        var slowPass := AssignAll(SchedState(fastPass.slots, fastPass.orders, old(queues.slow)),
                                  old(queues.slow), SLOW, repo.ids, repo.stations);
        && queues.fast == fastPass.queue && queues.slow == slowPass.queue
        && slots.slots == slowPass.slots && cache.orders == slowPass.orders
    {
      var mode := modes[m];
      var pending := queues.Members(mode);
      if |pending| > 0 {
        var ids := GetAllStationIds(repo);
        AssignMode(mode, pending, ids, queues, cache, slots, repo, now);
      }
      m := m + 1;
    }
  }
}
