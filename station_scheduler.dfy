/**
 * The per-second charging tick: for every station that is open, waiting
 * orders of its mode fill the free places of its slot queue, and the order at
 * the head of the queue charges for one second and finishes once it has
 * received its requested amount. The tick is specified by functions over the
 * slots, the cached orders, the waiting queues and the persisted orders
 * (`TickAll`); the methods run it on the stores.
 */
module ChargingStationScheduler {
  import opened Common
  import opened Entities
  import opened Seqs
  import opened OrderCacheService
  import opened ChargingStationSlotService
  import opened QueueService
  import opened Repositories

  const SECONDS_PER_DAY := 86400
  /** The unit price used when a station has no price periods. */
  const DEFAULT_UNIT_PRICE := 1.0

  // ---------------------------------------------------------------- prices

  /**
   * isInPeriod: a period whose start equals its end covers the whole day; one
   * with start before end is [start, end); any other wraps past midnight.
   */
  predicate IsInPeriod(now: TimeOfDay, start: TimeOfDay, end: TimeOfDay) {
    if start == end then true
    else if start < end then start <= now && now < end
    else start <= now || now < end
  }

  /** A period covers the times whose distance after its start, around the clock, is below its length. */
  lemma IsInPeriodCircular(now: TimeOfDay, start: TimeOfDay, end: TimeOfDay)
    ensures IsInPeriod(now, start, end) <==>
      start == end || (now - start) % SECONDS_PER_DAY < (end - start) % SECONDS_PER_DAY
  {
    if start < end {
      if now < start {
        assert (now - start) % SECONDS_PER_DAY == now - start + SECONDS_PER_DAY;
      } else {
        assert (now - start) % SECONDS_PER_DAY == now - start;
      }
      assert (end - start) % SECONDS_PER_DAY == end - start;
    } else if end < start {
      assert (end - start) % SECONDS_PER_DAY == end - start + SECONDS_PER_DAY;
      if now < start {
        assert (now - start) % SECONDS_PER_DAY == now - start + SECONDS_PER_DAY;
      } else {
        assert (now - start) % SECONDS_PER_DAY == now - start;
      }
    }
  }

  /** The position of the first period covering the time, if any. */
  function FirstMatch(now: TimeOfDay, prices: seq<UnitPricePeriod>): (r: Option<nat>)
    ensures r.Some? ==> r.value < |prices| && IsInPeriod(now, prices[r.value].startTime, prices[r.value].endTime)
    ensures r.Some? ==> forall j :: 0 <= j < r.value ==> !IsInPeriod(now, prices[j].startTime, prices[j].endTime)
    ensures r.None? <==> forall j :: 0 <= j < |prices| ==> !IsInPeriod(now, prices[j].startTime, prices[j].endTime)
  {
    if prices == [] then None
    else if IsInPeriod(now, prices[0].startTime, prices[0].endTime) then Some(0)
    else
      var rest := FirstMatch(now, prices[1..]);
      assert forall j :: 0 < j < |prices| ==> prices[j] == prices[1..][j - 1];
      if rest.Some? then Some(rest.value + 1) else None
  }

  /** calcUnitPrice: the price of the first period covering the time, else the first period's, else the default. */
  function CalcUnitPrice(now: TimeOfDay, prices: seq<UnitPricePeriod>): (p: real)
    ensures prices == [] ==> p == DEFAULT_UNIT_PRICE
    ensures prices != [] && FirstMatch(now, prices).Some? ==> p == prices[FirstMatch(now, prices).value].price
    ensures prices != [] && FirstMatch(now, prices).None? ==> p == prices[0].price
  {
    if prices == [] then DEFAULT_UNIT_PRICE
    else
      var m := FirstMatch(now, prices);
      if m.Some? then prices[m.value].price else prices[0].price
  }

  /** The unit price is always one of the station's listed prices when it has any. */
  lemma UnitPriceIsListed(now: TimeOfDay, prices: seq<UnitPricePeriod>)
    requires prices != []
    ensures exists i :: 0 <= i < |prices| && CalcUnitPrice(now, prices) == prices[i].price
  {
    var m := FirstMatch(now, prices);
    if m.Some? {
      assert CalcUnitPrice(now, prices) == prices[m.value].price;
    } else {
      assert CalcUnitPrice(now, prices) == prices[0].price;
    }
  }

  // ---------------------------------------------------------------- accrual

  /** The accruals an order starts charging with. */
  const ZERO_ACCRUAL := Accrual(0.0, 0, 0.0, 0.0, 0.0)

  /**
   * One second of charging: the duration grows by one, the energy by
   * power/3600, the charge fee by the unit price times that energy and the
   * service fee by serviceFee/3600; the total is charge fee plus service fee.
   */
  function Advance(a: Accrual, power: Power, serviceFee: real, unitPrice: real): (b: Accrual)
    ensures b.chargeDuration == a.chargeDuration + 1
    ensures b.actualCharge > a.actualCharge
    ensures b.actualCharge == a.actualCharge + power / 3600.0
    ensures b.chargeFee == a.chargeFee + unitPrice * (power / 3600.0)
    ensures b.serviceFee == a.serviceFee + serviceFee / 3600.0
    ensures b.totalFee == b.chargeFee + b.serviceFee
  {
    var added := power / 3600.0;
    var chargeFee := a.chargeFee + unitPrice * added;
    var fee := a.serviceFee + serviceFee / 3600.0;
    Accrual(a.actualCharge + added, a.chargeDuration + 1, chargeFee, fee, chargeFee + fee)
  }

  /** With prices that are not negative, no accrual ever decreases. */
  lemma AdvanceNonDecreasing(a: Accrual, power: Power, serviceFee: real, unitPrice: real)
    requires serviceFee >= 0.0 && unitPrice >= 0.0
    ensures var b := Advance(a, power, serviceFee, unitPrice);
            && b.actualCharge >= a.actualCharge && b.chargeDuration >= a.chargeDuration
            && b.chargeFee >= a.chargeFee && b.serviceFee >= a.serviceFee
            && (a.totalFee == a.chargeFee + a.serviceFee ==> b.totalFee >= a.totalFee)
  {
    assert unitPrice * (power / 3600.0) >= 0.0;
  }

  /** n seconds of charging at constant prices. */
  function AdvanceN(a: Accrual, n: nat, power: Power, serviceFee: real, unitPrice: real): Accrual {
    if n == 0 then a else Advance(AdvanceN(a, n - 1, power, serviceFee, unitPrice), power, serviceFee, unitPrice)
  }

  /** x added up k times. */
  function Repeated(k: nat, x: real): real {
    if k == 0 then 0.0 else Repeated(k - 1, x) + x
  }

  /** x added up k times is k times x. */
  lemma {:induction false} RepeatedIsProduct(k: nat, x: real)
    ensures Repeated(k, x) == k as real * x
  {
    if k > 0 {
      RepeatedIsProduct(k - 1, x);
      assert (k - 1) as real * x + x == k as real * x;
    }
  }

  /** After n seconds from the start each accrual has grown by its per-second increment n times. */
  lemma {:induction false} AdvanceNSums(n: nat, power: Power, serviceFee: real, unitPrice: real)
    ensures var b := AdvanceN(ZERO_ACCRUAL, n, power, serviceFee, unitPrice);
            && b.chargeDuration == n
            && b.actualCharge == Repeated(n, power / 3600.0)
            && b.chargeFee == Repeated(n, unitPrice * (power / 3600.0))
            && b.serviceFee == Repeated(n, serviceFee / 3600.0)
            && b.totalFee == b.chargeFee + b.serviceFee
  {
    if n > 0 {
      AdvanceNSums(n - 1, power, serviceFee, unitPrice);
    }
  }

  /** After n seconds from the start an order has exactly n seconds' worth of energy and fees. */
  lemma AdvanceNTotals(n: nat, power: Power, serviceFee: real, unitPrice: real)
    ensures var b := AdvanceN(ZERO_ACCRUAL, n, power, serviceFee, unitPrice);
            && b.chargeDuration == n
            && b.actualCharge == n as real * (power / 3600.0)
            && b.chargeFee == n as real * (unitPrice * (power / 3600.0))
            && b.serviceFee == n as real * (serviceFee / 3600.0)
            && b.totalFee == b.chargeFee + b.serviceFee
  {
    AdvanceNSums(n, power, serviceFee, unitPrice);
    RepeatedIsProduct(n, power / 3600.0);
    RepeatedIsProduct(n, unitPrice * (power / 3600.0));
    RepeatedIsProduct(n, serviceFee / 3600.0);
  }

  // ---------------------------------------------------------------- queue fill

  /** What the fill changes: the slot queue, the cached orders and the waiting queue of the station's mode. */
  datatype FillState = FillState(queue: seq<string>, orders: map<string, Order>, waiting: seq<string>)

  /**
   * One waiting id: once the queue is full nothing more is taken; an id already
   * queued, without a cached order or whose order is not waiting is passed over;
   * a waiting order becomes queued without a queue number, leaves the waiting
   * queue and joins the slot queue.
   */
  function FillStep(st: FillState, id: string, max: int): FillState {
    if |st.queue| >= max || id in st.queue || id !in st.orders || st.orders[id].status != WAITING then st
    else
      var o := st.orders[id];
      FillState(st.queue + [id], st.orders[id := o.(status := QUEUED, queueNo := None)], RemoveAll(st.waiting, id))
  }

  /** The waiting ids in turn. */
  function FillAll(st: FillState, ids: seq<string>, max: int): FillState
    decreases |ids|
  {
    if ids == [] then st else FillAll(FillStep(st, ids[0], max), ids[1..], max)
  }

  /** A full queue takes nothing more: leaving the loop at a full queue is the same as visiting the rest. */
  lemma {:induction false} FullStays(st: FillState, ids: seq<string>, max: int)
    requires |st.queue| >= max
    ensures FillAll(st, ids, max) == st
    decreases |ids|
  {
    if ids != [] {
      FullStays(FillStep(st, ids[0], max), ids[1..], max);
    }
  }

  /**
   * A fill from `st` to `r` that appended exactly `d`: ids from the list that
   * were not queued and were cached waiting orders, each once, now queued
   * without a queue number and out of the waiting queue; no other order and
   * no other waiting id changes.
   */
  ghost predicate AddedBy(st: FillState, r: FillState, d: seq<string>, ids: seq<string>) {
    && r.queue == st.queue + d
    && Distinct(d)
    && r.orders.Keys == st.orders.Keys
    && (forall x :: x in d ==>
          && x in ids && x !in st.queue
          && x in st.orders && st.orders[x].status == WAITING
          && r.orders[x] == st.orders[x].(status := QUEUED, queueNo := None)
          && x !in r.waiting)
    && (forall x :: x in st.orders && x !in d ==> r.orders[x] == st.orders[x])
    && (forall x :: x in r.waiting <==> x in st.waiting && x !in d)
  }

  /** What a fill added: the part of the queue past its old length. */
  ghost predicate Added(st: FillState, r: FillState, ids: seq<string>) {
    |st.queue| <= |r.queue| && AddedBy(st, r, r.queue[|st.queue|..], ids)
  }

  /** One step meets the fill's description. */
  lemma FillStepAdded(st: FillState, id: string, max: int)
    ensures Added(st, FillStep(st, id, max), [id])
  {
    var r := FillStep(st, id, max);
    if r != st {
      assert r.queue[|st.queue|..] == [id];
    } else {
      assert r.queue[|st.queue|..] == [];
    }
  }

  /** Two fills in a row meet the description of the joint fill. */
  lemma AddedCompose(st: FillState, mid: FillState, r: FillState, ids1: seq<string>, ids2: seq<string>)
    requires Added(st, mid, ids1) && Added(mid, r, ids2)
    ensures Added(st, r, ids1 + ids2)
  {
    var d1 := mid.queue[|st.queue|..];
    var d2 := r.queue[|mid.queue|..];
    assert r.queue == st.queue + (d1 + d2);
    assert r.queue[|st.queue|..] == d1 + d2;
    assert forall x :: x in d1 ==> x in mid.queue;
    assert forall x :: x in st.queue ==> x in mid.queue;
    forall x | x in d1 + d2
      ensures x in ids1 + ids2 && x !in st.queue
      ensures x in st.orders && st.orders[x].status == WAITING
      ensures r.orders[x] == st.orders[x].(status := QUEUED, queueNo := None)
      ensures x !in r.waiting
    {
      if x in d1 {
        assert x !in d2;
      } else {
        assert x !in d1;
      }
    }
    DistinctConcat(d1, d2);
  }

  /** Two duplicate-free sequences with no common element concatenate to a duplicate-free one. */
  lemma DistinctConcat<T>(a: seq<T>, b: seq<T>)
    requires Distinct(a) && Distinct(b)
    requires forall x :: x in a ==> x !in b
    ensures Distinct(a + b)
  {
    forall i, j | 0 <= i < j < |a + b|
      ensures (a + b)[i] != (a + b)[j]
    {
      if i < |a| && j >= |a| {
        assert (a + b)[i] in a && (a + b)[j] in b;
      }
    }
  }

  /**
   * A fill over a list of waiting ids keeps the slot queue's prefix; every id
   * it adds came from the list, was not queued, was a cached waiting order,
   * is now queued without a queue number and has left the waiting queue; no
   * other order changes, and the slot queue keeps each id at most once.
   */
  lemma {:induction false} FillAllAdded(st: FillState, ids: seq<string>, max: int)
    ensures Added(st, FillAll(st, ids, max), ids)
    decreases |ids|
  {
    if ids == [] {
      assert FillAll(st, ids, max).queue[|st.queue|..] == [];
    } else {
      var mid := FillStep(st, ids[0], max);
      FillStepAdded(st, ids[0], max);
      FillAllAdded(mid, ids[1..], max);
      AddedCompose(st, mid, FillAll(mid, ids[1..], max), [ids[0]], ids[1..]);
      assert [ids[0]] + ids[1..] == ids;
    }
  }

  /** A fill never grows a queue past the maximum length. */
  lemma {:induction false} FillAllBounded(st: FillState, ids: seq<string>, max: int)
    requires |st.queue| <= max
    ensures |FillAll(st, ids, max).queue| <= max
    decreases |ids|
  {
    if ids != [] {
      FillAllBounded(FillStep(st, ids[0], max), ids[1..], max);
    }
  }

  /** The fill's outcome for one station. */
  datatype FillOutcome = FillOutcome(slot: Slot, orders: map<string, Order>, waiting: seq<string>)

  /**
   * processQueueFill. A station without a maximum queue length throws
   * (NullValue) before anything changes. When the queue has no free place
   * nothing changes, not even a missing queue; otherwise a missing queue
   * becomes empty and the waiting ids, as read at the start, fill it.
   */
  function QueueFill(station: ChargingStation, slot: Slot, orders: map<string, Order>, waiting: seq<string>): (r: Result<FillOutcome>)
    ensures r.Err? <==> station.maxQueueLength.None?
    ensures r.Ok? ==> r.value.slot.status == slot.status && r.value.slot.waitingTime == slot.waitingTime
    ensures r.Ok? && station.maxQueueLength.Some? ==>
      r.value.slot.queue == slot.queue || (r.value.slot.queue.Some? && |r.value.slot.queue.value| <= station.maxQueueLength.value)
    ensures station.maxQueueLength.Some? && station.maxQueueLength.value - |slot.queue.GetOr([])| <= 0 ==>
      r == Ok(FillOutcome(slot, orders, waiting))
    ensures r.Ok? && r.value.slot.queue.Some? ==>
      Added(FillState(slot.queue.GetOr([]), orders, waiting),
            FillState(r.value.slot.queue.value, r.value.orders, r.value.waiting), waiting)
  {
    if station.maxQueueLength.None? then Err(NullValue)
    else
      var max := station.maxQueueLength.value;
      var need := max - if slot.queue.None? then 0 else |slot.queue.value|;
      if need <= 0 then Ok(FillOutcome(slot, orders, waiting))
      else
        var start := FillState(slot.queue.GetOr([]), orders, waiting);
        FillAllBounded(start, waiting, max);
        FillAllAdded(start, waiting, max);
        var r := FillAll(start, waiting, max);
        Ok(FillOutcome(slot.(queue := Some(r.queue)), r.orders, r.waiting))
  }

  // ---------------------------------------------------------------- head order

  /** An order that was not charging starts now, with all accruals at zero. */
  function StartCharging(o: Order, now: int): (r: Order)
    ensures r.status == CHARGING && r.accrual == Some(ZERO_ACCRUAL) && r.startTime == Some(now)
    ensures r.id == o.id && r.userId == o.userId && r.chargeAmount == o.chargeAmount && r.stationId == o.stationId
  {
    o.(status := CHARGING, accrual := Some(ZERO_ACCRUAL), startTime := Some(now))
  }

  /** The head step's outcome: the slot, the cached orders and the persisted orders. */
  datatype HeadOutcome = HeadOutcome(slot: Slot, orders: map<string, Order>, saved: map<string, Order>)

  /**
   * processChargingHeadOrder. A head id without a cached order is dropped.
   * Otherwise the head order is started if it was not charging and charges for
   * one second; once it has the requested amount it is finished now, leaves the
   * cache and the queue, and is persisted. A charging order without accruals
   * throws (NullValue) before anything changes.
   */
  function ChargingHead(slot: Slot, orders: map<string, Order>, saved: map<string, Order>,
                        power: Power, serviceFee: real, unitPrice: real, now: int): (r: Result<HeadOutcome>)
    ensures r.Ok? ==> r.value.slot.status == slot.status && r.value.slot.waitingTime == slot.waitingTime
    ensures slot.queue.None? || slot.queue.value == [] ==> r == Ok(HeadOutcome(slot, orders, saved))
    ensures r.Ok? ==> r.value.slot.queue == slot.queue || (slot.queue.Some? && r.value.slot.queue == Some(slot.queue.value[1..]))
    ensures slot.queue.Some? && slot.queue.value != [] && slot.queue.value[0] !in orders ==>
      r == Ok(HeadOutcome(slot.(queue := Some(slot.queue.value[1..])), orders, saved))
  {
    if slot.queue.None? || slot.queue.value == [] then Ok(HeadOutcome(slot, orders, saved))
    else
      var queue := slot.queue.value;
      var id := queue[0];
      if id !in orders then Ok(HeadOutcome(slot.(queue := Some(queue[1..])), orders, saved))
      else
        var o := if orders[id].status != CHARGING then StartCharging(orders[id], now) else orders[id];
        if o.accrual.None? then Err(NullValue)
        else
          var a := Advance(o.accrual.value, power, serviceFee, unitPrice);
          var charged := o.(accrual := Some(a));
          if a.actualCharge >= charged.chargeAmount then
            var done := charged.(stopTime := Some(now), status := FINISHED);
            Ok(HeadOutcome(slot.(queue := Some(queue[1..])), orders - {id}, saved[id := done]))
          else Ok(HeadOutcome(slot, orders[id := charged], saved))
  }

  /**
   * The head order charges one more second; it leaves the queue and the cache,
   * finished, exactly when it has reached its requested amount, and stays at
   * the head otherwise. Only the head order changes.
   */
  lemma ChargingHeadOutcome(slot: Slot, orders: map<string, Order>, saved: map<string, Order>,
                            power: Power, serviceFee: real, unitPrice: real, now: int)
    requires slot.queue.Some? && slot.queue.value != [] && slot.queue.value[0] in orders
    requires orders[slot.queue.value[0]].status == CHARGING ==> orders[slot.queue.value[0]].accrual.Some?
    ensures var id := slot.queue.value[0];
            var r := ChargingHead(slot, orders, saved, power, serviceFee, unitPrice, now);
            var before := if orders[id].status == CHARGING then orders[id].accrual.value else ZERO_ACCRUAL;
            var a := Advance(before, power, serviceFee, unitPrice);
            && r.Ok?
            && (forall x :: x in orders && x != id ==> x in r.value.orders && r.value.orders[x] == orders[x])
            && (a.actualCharge >= orders[id].chargeAmount ==>
                  && id !in r.value.orders && r.value.slot.queue == Some(slot.queue.value[1..])
                  && id in r.value.saved && r.value.saved[id].status == FINISHED
                  && r.value.saved[id].accrual == Some(a) && r.value.saved[id].stopTime == Some(now))
            && (a.actualCharge < orders[id].chargeAmount ==>
                  && r.value.slot == slot && r.value.saved == saved
                  && id in r.value.orders && r.value.orders[id].status == CHARGING
                  && r.value.orders[id].accrual == Some(a))
  {
  }

  // ---------------------------------------------------------------- the tick

  /** What the tick changes. */
  datatype TickState = TickState(slots: map<int, Slot>, orders: map<string, Order>,
                                 fast: seq<string>, slow: seq<string>, saved: map<string, Order>)

  /** The waiting queue of a mode. */
  function Waiting(st: TickState, mode: int): seq<string> {
    if GetQueueKey(mode) == FAST_QUEUE_KEY then st.fast else st.slow
  }

  /** Replaces the waiting queue of a mode. */
  function WithWaiting(st: TickState, mode: int, q: seq<string>): (r: TickState)
    ensures Waiting(r, mode) == q && Waiting(r, OtherMode(mode)) == Waiting(st, OtherMode(mode))
  {
    if GetQueueKey(mode) == FAST_QUEUE_KEY then st.(fast := q) else st.(slow := q)
  }

  /** Whether the tick passes a station by: no slot, no status, or closed or faulted. */
  predicate Skipped(slots: map<int, Slot>, id: int) {
    id !in slots || slots[id].status.None? || slots[id].status.value.code == CLOSED || slots[id].status.value.code == FAULTED
  }

  /**
   * One station of the tick: fill, then the head order, then the slot is written
   * back. A fill that throws leaves everything as it was; a head order that
   * throws keeps the fill's order and waiting-queue writes but not the slot's.
   */
  function StationTick(st: TickState, station: ChargingStation, time: TimeOfDay, now: int): TickState {
    var id := station.id;
    if Skipped(st.slots, id) then st
    else
      match QueueFill(station, st.slots[id], st.orders, Waiting(st, station.mode))
      case Err(_) => st
      case Ok(f) =>
        var filled := WithWaiting(st.(orders := f.orders), station.mode, f.waiting);
        match ChargingHead(f.slot, filled.orders, filled.saved, station.power, station.serviceFee,
                           CalcUnitPrice(time, station.unitPrices), now)
        case Err(_) => filled
        case Ok(h) => filled.(slots := st.slots[id := h.slot], orders := h.orders, saved := h.saved)
  }

  /** The stations in the order the repository lists them. */
  function TickAll(st: TickState, ids: seq<int>, stations: map<int, ChargingStation>, time: TimeOfDay, now: int): TickState
    requires forall id :: id in ids ==> id in stations
  {
    if ids == [] then st
    else
      var last := ids[|ids| - 1];
      assert last in ids;
      StationTick(TickAll(st, ids[..|ids| - 1], stations, time, now), stations[last], time, now)
  }

  /** A skipped station leaves the whole state as it was. */
  lemma SkippedUntouched(st: TickState, station: ChargingStation, time: TimeOfDay, now: int)
    requires Skipped(st.slots, station.id)
    ensures StationTick(st, station, time, now) == st
  {
  }

  /**
   * The tick never changes which stations have slots, nor any slot's status or
   * waiting time: only slot queues change.
   */
  lemma {:induction false} TickKeepsStatus(st: TickState, ids: seq<int>, stations: map<int, ChargingStation>, time: TimeOfDay, now: int)
    requires forall id :: id in ids ==> id in stations
    ensures var r := TickAll(st, ids, stations, time, now);
            && r.slots.Keys == st.slots.Keys
            && forall k :: k in st.slots ==> r.slots[k].status == st.slots[k].status && r.slots[k].waitingTime == st.slots[k].waitingTime
  {
    if ids != [] {
      var last := ids[|ids| - 1];
      assert last in ids;
      TickKeepsStatus(st, ids[..|ids| - 1], stations, time, now);
      StationTickKeepsStatus(TickAll(st, ids[..|ids| - 1], stations, time, now), stations[last], time, now);
    }
  }

  /** One station's tick keeps which stations have slots and every slot's status and waiting time. */
  lemma StationTickKeepsStatus(st: TickState, station: ChargingStation, time: TimeOfDay, now: int)
    ensures var r := StationTick(st, station, time, now);
            && r.slots.Keys == st.slots.Keys
            && forall k :: k in st.slots ==> r.slots[k].status == st.slots[k].status && r.slots[k].waitingTime == st.slots[k].waitingTime
  {
    var id := station.id;
    if !Skipped(st.slots, id) {
      var fill := QueueFill(station, st.slots[id], st.orders, Waiting(st, station.mode));
      if fill.Ok? {
        var f := fill.value;
        var filled := WithWaiting(st.(orders := f.orders), station.mode, f.waiting);
        var head := ChargingHead(f.slot, filled.orders, filled.saved, station.power, station.serviceFee,
                                 CalcUnitPrice(time, station.unitPrices), now);
        if head.Ok? {
          assert StationTick(st, station, time, now).slots == st.slots[id := head.value.slot];
        } else {
          assert StationTick(st, station, time, now).slots == st.slots;
        }
      }
    }
  }

  /** Slot queues that are within their maximum length stay within it. */
  ghost predicate QueuesBounded(slots: map<int, Slot>, stations: map<int, ChargingStation>) {
    forall k :: k in slots && k in stations && stations[k].id == k && stations[k].maxQueueLength.Some? && slots[k].queue.Some? ==>
      |slots[k].queue.value| <= stations[k].maxQueueLength.value
  }

  /** The tick keeps every slot queue within its station's maximum length. */
  lemma {:induction false} TickKeepsBounds(st: TickState, ids: seq<int>, stations: map<int, ChargingStation>, time: TimeOfDay, now: int)
    requires forall id :: id in ids ==> id in stations && stations[id].id == id
    requires QueuesBounded(st.slots, stations)
    ensures QueuesBounded(TickAll(st, ids, stations, time, now).slots, stations)
  {
    if ids != [] {
      var last := ids[|ids| - 1];
      assert last in ids;
      TickKeepsBounds(st, ids[..|ids| - 1], stations, time, now);
      StationTickKeepsBounds(TickAll(st, ids[..|ids| - 1], stations, time, now), stations[last], stations, time, now);
    }
  }

  /** One station's tick keeps every slot queue within its station's maximum length. */
  lemma StationTickKeepsBounds(st: TickState, station: ChargingStation, stations: map<int, ChargingStation>, time: TimeOfDay, now: int)
    requires station.id in stations && stations[station.id] == station
    requires QueuesBounded(st.slots, stations)
    ensures QueuesBounded(StationTick(st, station, time, now).slots, stations)
  {
  }

  // ---------------------------------------------------------------- the methods

  /** processQueueFill on the stores: the loop leaves at the first full queue. */
  method ProcessQueueFill(station: ChargingStation, slot: Slot, cache: OrderCache, queues: WaitingQueues)
    returns (r: Result<Slot>)
    requires cache.Valid()
    modifies cache, queues
    ensures cache.Valid()
    ensures match QueueFill(station, slot, old(cache.orders), old(queues.Members(station.mode)))
            case Err(e) => r == Err(e) && cache.orders == old(cache.orders)
                           && queues.fast == old(queues.fast) && queues.slow == old(queues.slow)
            case Ok(f) => r == Ok(f.slot) && cache.orders == f.orders && queues.Members(station.mode) == f.waiting
    ensures queues.Members(OtherMode(station.mode)) == old(queues.Members(OtherMode(station.mode)))
  {
    if station.maxQueueLength.None? {
      return Err(NullValue);
    }
    var max := station.maxQueueLength.value;
    var needFill := max - if slot.queue.None? then 0 else |slot.queue.value|;
    if needFill <= 0 {
      return Ok(slot);
    }
    var waiting := queues.Members(station.mode);
    var queue := slot.queue.GetOr([]);
    ghost var start := FillState(queue, cache.orders, waiting);
    var i := 0;
    while i < |waiting|
      invariant 0 <= i <= |waiting|
      invariant cache.Valid()
      invariant FillAll(FillState(queue, cache.orders, queues.Members(station.mode)), waiting[i..], max) == FillAll(start, waiting, max)
      invariant queues.Members(OtherMode(station.mode)) == old(queues.Members(OtherMode(station.mode)))
    {
      ghost var cur := FillState(queue, cache.orders, queues.Members(station.mode));
      if |queue| >= max {
        FullStays(cur, waiting[i..], max);
        break;
      }
      var orderId := waiting[i];
      ghost var next := FillStep(cur, orderId, max);
      assert FillAll(cur, waiting[i..], max) == FillAll(next, waiting[i + 1..], max) by {
        assert waiting[i..][0] == orderId && waiting[i..][1..] == waiting[i + 1..];
      }
      queue := FillOne(orderId, queue, max, station.mode, cache, queues);
      i := i + 1;
    }
    if i == |waiting| {
      assert waiting[i..] == [];
    }
    r := Ok(slot.(queue := Some(queue)));
  }

  /** One waiting id of processQueueFill, visited while the queue has room. */
  method FillOne(orderId: string, queue: seq<string>, max: int, mode: int, cache: OrderCache, queues: WaitingQueues)
    returns (queue': seq<string>)
    requires cache.Valid()
    requires |queue| < max
    modifies cache, queues
    ensures cache.Valid()
    ensures FillState(queue', cache.orders, queues.Members(mode))
         == FillStep(FillState(queue, old(cache.orders), old(queues.Members(mode))), orderId, max)
    ensures queues.Members(OtherMode(mode)) == old(queues.Members(OtherMode(mode)))
  {
    queue' := queue;
    if orderId !in queue {
      var order := cache.GetOrder(Some(orderId));
      if order.Some? && order.value.status == WAITING {
        cache.SaveOrder(Some(order.value.(status := QUEUED, queueNo := None)));
        queues.RemoveOrderFromQueueWithLock(mode, orderId);
        queue' := queue + [orderId];
      }
    }
  }

  /** processChargingHeadOrder on the stores. */
  method ProcessChargingHeadOrder(station: ChargingStation, slot: Slot, time: TimeOfDay, now: int,
                                  cache: OrderCache, orderRepo: OrderRepository)
    returns (r: Result<Slot>)
    requires cache.Valid() && orderRepo.Valid()
    modifies cache, orderRepo
    ensures cache.Valid() && orderRepo.Valid()
    ensures match ChargingHead(slot, old(cache.orders), old(orderRepo.orders), station.power, station.serviceFee,
                               CalcUnitPrice(time, station.unitPrices), now)
            case Err(e) => r == Err(e) && cache.orders == old(cache.orders) && orderRepo.orders == old(orderRepo.orders)
            case Ok(h) => r == Ok(h.slot) && cache.orders == h.orders && orderRepo.orders == h.saved
  {
    if slot.queue.None? || slot.queue.value == [] {
      return Ok(slot);
    }
    var queue := slot.queue.value;
    var orderId := queue[0];
    var cached := cache.GetOrder(Some(orderId));
    if cached.None? {
      return Ok(slot.(queue := Some(queue[1..])));
    }
    var order := cached.value;
    if order.status != CHARGING {
      order := StartCharging(order, now);
    }
    if order.accrual.None? {
      return Err(NullValue);
    }
    var unitPrice := CalcUnitPrice(time, station.unitPrices);
    order := order.(accrual := Some(Advance(order.accrual.value, station.power, station.serviceFee, unitPrice)));
    cache.SaveOrder(Some(order));
    if order.accrual.value.actualCharge >= order.chargeAmount {
      order := order.(stopTime := Some(now), status := FINISHED);
      cache.DeleteOrder(Some(orderId));
      orderRepo.Save(order);
      return Ok(slot.(queue := Some(queue[1..])));
    }
    r := Ok(slot);
  }

  /** One station of chargingStationTask on the stores. */
  method ProcessStation(station: ChargingStation, time: TimeOfDay, now: int,
                        slots: SlotStore, cache: OrderCache, queues: WaitingQueues, orderRepo: OrderRepository)
    requires cache.Valid() && orderRepo.Valid()
    modifies slots, cache, queues, orderRepo
    ensures cache.Valid() && orderRepo.Valid()
    ensures TickState(slots.slots, cache.orders, queues.fast, queues.slow, orderRepo.orders)
         == StationTick(TickState(old(slots.slots), old(cache.orders), old(queues.fast), old(queues.slow), old(orderRepo.orders)),
                        station, time, now)
  {
    var slot := slots.GetSlot(station.id);
    if slot.None? {
      return;
    }
    if slot.value.status.None? || slot.value.status.value.code == CLOSED || slot.value.status.value.code == FAULTED {
      return;
    }
    var filled := ProcessQueueFill(station, slot.value, cache, queues);
    if filled.Err? {
      return;
    }
    var headed := ProcessChargingHeadOrder(station, filled.value, time, now, cache, orderRepo);
    if headed.Err? {
      return;
    }
    slots.SetSlot(station.id, headed.value);
  }

  /** chargingStationTask: every station the repository lists, in its order. */
  method ChargingStationTask(repo: StationRepository, time: TimeOfDay, now: int,
                             slots: SlotStore, cache: OrderCache, queues: WaitingQueues, orderRepo: OrderRepository)
    requires repo.Valid() && cache.Valid() && orderRepo.Valid()
    modifies slots, cache, queues, orderRepo
    ensures cache.Valid() && orderRepo.Valid()
    ensures TickState(slots.slots, cache.orders, queues.fast, queues.slow, orderRepo.orders)
         == TickAll(TickState(old(slots.slots), old(cache.orders), old(queues.fast), old(queues.slow), old(orderRepo.orders)),
                    repo.ids, repo.stations, time, now)
  {
    ghost var st0 := TickState(slots.slots, cache.orders, queues.fast, queues.slow, orderRepo.orders);
    var stations := repo.ids;
    assert forall id :: id in stations ==> id in repo.stations;
    var i := 0;
    while i < |stations|
      invariant 0 <= i <= |stations|
      invariant forall id :: id in stations ==> id in repo.stations
      invariant cache.Valid() && orderRepo.Valid()
      invariant TickState(slots.slots, cache.orders, queues.fast, queues.slow, orderRepo.orders)
             == TickAll(st0, stations[..i], repo.stations, time, now)
    {
      assert stations[..i + 1][..i] == stations[..i];
      assert stations[i] in stations;
      var station := repo.stations[stations[i]];
      ProcessStation(station, time, now, slots, cache, queues, orderRepo);
      i := i + 1;
    }
    assert stations[..|stations|] == stations;
  }
}
