# Charging-station scheduling and billing, modelled in Dafny

Users of the Zhuzhu charging-station backend place charging orders. An order
asks for an amount of energy in one of two modes: fast (mode 1) or slow
(mode 0).

- **Intake.** A new order is numbered in its mode's waiting queue ("F3", "T12")
  and waits there.
- **Admission.** Every second, an admission pass moves each waiting order to
  the open station of its mode whose slot queue has the least waiting time.
  That time is the sum, over the queued orders, of the seconds each still needs
  (`ceil(remaining / power)`).
- **Charging tick.** Every second, each open station fills the free places of
  its queue from the waiting orders. The order at the head of the queue then
  charges for one second at a unit price looked up by time of day. When it
  has its requested amount it is finished.
- **Administration.** Administrators create and edit stations and move them
  between idle (0), in use (1), closed (2) and faulted (3).
- **Ending an order.** Users cancel or finish their orders. A settlement
  credits the station's slot, the user's totals and the station's report.

Order statuses are finished (0), charging (1), queued at a station (2),
waiting (3) and cancelled (4).

## How the model is organised

One module per service or scheduler, in the files below.

**The stores are classes whose methods change their fields:**
- the order cache (`OrderCacheService.OrderCache`, a map from order id to order);
- the slot store (`ChargingStationSlotService.SlotStore`, a map from station id to slot);
- the two waiting queues (`QueueService.WaitingQueues`, two sequences of order ids);
- the three database tables (`Repositories`).

**The services are methods over those stores.** Each per-key lock makes its
Redis read-modify-write one atomic step, so a `*WithLock` operation is one
method call.

**A slot updater is a function from a slot to `Result<Slot>`.** An updater
that throws is an `Err`, and nothing is written back.

**The two schedulers are each specified by a function over the state they
change.**
- `OrderScheduler.AssignAll` specifies one admission pass.
- `ChargingStationScheduler.TickAll` specifies one tick.
- The methods that run them on the stores are proved equal to those functions.
- The properties (capacity, no duplicates, the first minimum is chosen,
  what is never touched) are lemmas about the functions.

**Numbers.**
- Energy, prices and fees are `real`.
- A station's power is a positive `real`.
- A time of day is a second count in [0, 86400).
- "Now" is a parameter.
- The queue-number arithmetic the Java writes wraps at 32 bits. `NextQueueNoAsWritten`
  keeps that wrap, and `QueueNoWrapsAtIntMax` shows where it goes wrong. The rest of the
  model, `AssignQueueNoWithLock` included, uses the corrected `NextQueueNo`, which does not
  wrap (see "## Findings").

## Where the code and its own comments disagree

The files come from different revisions. The model follows the services' view
throughout:

- **Ids and the slot queue.** Order ids are strings, and the slot queue is a
  list of order ids. The scheduler's revision keeps `Long` ids in a Redis set.
  The model runs the tick over the same list queue, in queue order.
- **Status codes.** Station status codes are those the services write:
  0 idle, 1 in use, 2 closed, 3 faulted.

Several behaviours of the code differ from what its comments and method names
suggest. The model keeps the code's behaviour. Paths below are relative to
`src/main/java/org/zhuzhu_charging_station_backend/`.

- **The waiting-time estimate and the tick use different units.** The estimate
  names its per-order value `thisOrderSeconds` but computes `ceil(remaining / power)`
  (`schedule/OrderScheduler.java:107-109`). The tick's comment calls
  `power / 3600.0` the energy of one second (`schedule/ChargingStationScheduler.java:101`).
- **A tick that finishes an order does not settle it.** The tick marks the order
  finished ("0 = completed", `schedule/ChargingStationScheduler.java:114-118`) and
  persists it, but does not call `settleOrder` (`service/OrderService.java:173-216`).
  The user totals, the station report and the slot counters are left alone. The tick
  never changes a slot's status or waiting time (`TickKeepsStatus`).
- **The fill does not record the station.** `processQueueFill` sets the moved
  order to queued ("2 = queued", `schedule/ChargingStationScheduler.java:70-71`) and
  clears its queue number, but leaves its station id unset. Admission sets it
  (`schedule/OrderScheduler.java:79`).
- **Every tick charges the default unit price.** The request's comments give the
  peak, normal and valley prices their hours of the day
  (`dto/ChargingStationUpsertRequest.java:17-19`). The tick reads only the station's
  price periods (`schedule/ChargingStationScheduler.java:104`), and none of the code
  modelled here ever fills them. `NewStation` creates a station with no periods and
  `ApplyRequest` keeps them. So `CalcUnitPrice` returns `DEFAULT_UNIT_PRICE` (1.0)
  for every modelled station, and the stored peak, normal and valley prices are
  never read.
- **Nothing ever sets a station in use.** The guards of fix, shut, open and the
  update path refuse an in-use station (status 1,
  `service/ChargingStationService.java:97`, `:197`, `:227`), but no code writes that
  status. `TransitionsNeverEnterInUse` states this, so those guards never fire in a
  run of this code.
- **Shutting a faulted station closes it without a repair.** `shutChargingStation`
  (`service/ChargingStationService.java:194-205`) refuses only an in-use station.
  `ShutClosesFaulted` states this.
- **A cancel with progress settles instead.** `cancelOrder` routes an order with a
  non-negative delivered amount to `settleOrder` rather than cancelling it
  (`service/OrderService.java:127-128`).
- **Re-queueing keeps the status.** An upsert of an existing order keeps its
  status, whatever it was (`service/OrderService.java:60-65`).
- **A failed settlement step keeps the earlier steps.** `settleOrder` has no
  `@Transactional` (`service/OrderService.java:173`). When a step throws, the
  steps before it stay done.
- **The update path can skip the save silently.** When the station has no slot,
  the update path of `upsertChargingStation` returns the station unchanged and
  saves nothing (`service/ChargingStationService.java:91-119`).

## Model

Source paths are relative to the repository root.

| member | source | states |
|---|---|---|
| `OrderCacheService.BuildOrderKey` | src/main/java/org/zhuzhu_charging_station_backend/service/OrderCacheService.java:59-61 | the key is "order:" followed by exactly the id |
| `OrderCacheService.BuildOrderKeyInjective` | src/main/java/org/zhuzhu_charging_station_backend/service/OrderCacheService.java:59-61 | two ids with the same key are the same id, so orders never collide in the cache |
| `OrderCacheService.OrdersOfUser` | src/main/java/org/zhuzhu_charging_station_backend/service/OrderCacheService.java:34-46 | the key scan returns exactly the orders of the user, each id once, and nothing for an empty cache |
| `OrderCacheService.ScanStep` | src/main/java/org/zhuzhu_charging_station_backend/service/OrderCacheService.java:40-44 | visiting one more key keeps "collected = the user's orders among the keys seen, once each" |
| `OrderCacheService.ScanComplete` | src/main/java/org/zhuzhu_charging_station_backend/service/OrderCacheService.java:34-46 | once every key is seen the result is exactly the user's orders, without repeated ids |
| `OrderCacheService.OrderCache.constructor` | src/main/java/org/zhuzhu_charging_station_backend/service/OrderCacheService.java:16 | the cache starts empty |
| `OrderCacheService.OrderCache.SaveOrder` | src/main/java/org/zhuzhu_charging_station_backend/service/OrderCacheService.java:21-24 | a null order (or null id) changes nothing; otherwise only that id's entry is replaced and getOrder returns the order |
| `OrderCacheService.OrderCache.GetOrder` | src/main/java/org/zhuzhu_charging_station_backend/service/OrderCacheService.java:29-32 | null for a null id; the stored order exactly when the id is cached |
| `OrderCacheService.OrderCache.DeleteOrder` | src/main/java/org/zhuzhu_charging_station_backend/service/OrderCacheService.java:51-54 | afterwards getOrder(id) is null and every other id reads as before |
| `OrderCacheService.OrderCache.GetAllOrdersByUser` | src/main/java/org/zhuzhu_charging_station_backend/service/OrderCacheService.java:34-46 | exactly the cached orders of the user, each once; empty for an empty cache |
| `ChargingStationSlotService.ApplyUpdate` | src/main/java/org/zhuzhu_charging_station_backend/service/ChargingStationSlotService.java:40-63 | no lock or no slot writes nothing; otherwise the updater's slot is stored at that id only, and an updater that throws writes nothing |
| `ChargingStationSlotService.SlotStore.constructor` | src/main/java/org/zhuzhu_charging_station_backend/service/ChargingStationSlotService.java:17-20 | the store starts empty |
| `ChargingStationSlotService.SlotStore.GetSlot` | src/main/java/org/zhuzhu_charging_station_backend/service/ChargingStationSlotService.java:23-25 | a slot exactly when the station id is stored, and that slot |
| `ChargingStationSlotService.SlotStore.SetSlot` | src/main/java/org/zhuzhu_charging_station_backend/service/ChargingStationSlotService.java:23-29 | getSlot afterwards returns the slot; no other station's slot changes |
| `ChargingStationSlotService.SlotStore.RemoveSlot` | src/main/java/org/zhuzhu_charging_station_backend/service/ChargingStationSlotService.java:31-33 | getSlot afterwards is null; no other station's slot changes |
| `ChargingStationSlotService.SlotStore.UpdateSlotWithLock` | src/main/java/org/zhuzhu_charging_station_backend/service/ChargingStationSlotService.java:40-63 | the store becomes ApplyUpdate of the old one; a lock timeout is an error, an absent slot is false with nothing written, an updater's exception is passed on |
| `QueueService.GetQueueKey` | src/main/java/org/zhuzhu_charging_station_backend/service/QueueService.java:29-31 | mode 1 is the fast queue, every other mode the slow queue |
| `QueueService.OtherMode` | src/main/java/org/zhuzhu_charging_station_backend/service/QueueService.java:29-31 | the returned mode selects the other queue (used to state that an operation leaves it alone) |
| `QueueService.MaxSuffix` | src/main/java/org/zhuzhu_charging_station_backend/service/QueueService.java:45-61 | the result is an `int` at least 0 and at least every integer suffix under the prefix of a cached queued order |
| `QueueService.MaxSuffixAttained` | src/main/java/org/zhuzhu_charging_station_backend/service/QueueService.java:45-61 | the maximum is 0 or the suffix of some queued, cached order; ids without an order and non-integer suffixes never count |
| `QueueService.MaxSuffixStep` | src/main/java/org/zhuzhu_charging_station_backend/service/QueueService.java:53-58 | one more scanned id raises the maximum to its suffix exactly when that suffix is larger |
| `QueueService.QueueNoWrapsAtIntMax` | src/main/java/org/zhuzhu_charging_station_backend/service/QueueService.java:62 | at maxNo = 2147483647 the text written parses back as -2147483648, below every existing number |
| `QueueService.NextQueueNoAsWritten` | src/main/java/org/zhuzhu_charging_station_backend/service/QueueService.java:62 | `prefix + (maxNo + 1)` with the 32-bit `int` addition the Java performs; the text keeps the prefix and has characters after it (the wrap itself is `QueueNoWrapsAtIntMax`) |
| `QueueService.NextQueueNo` | src/main/java/org/zhuzhu_charging_station_backend/service/QueueService.java:62 | the corrected next number, without wrap-around: the prefix followed by decimal digits only; `NextQueueNoExceeds` proves it exceeds every queued number |
| `QueueService.NextQueueNoParts` | src/main/java/org/zhuzhu_charging_station_backend/service/QueueService.java:62 | the number is the prefix followed by the decimal digits of maxNo + 1 |
| `QueueService.NextQueueNoExceeds` | src/main/java/org/zhuzhu_charging_station_backend/service/QueueService.java:45-62 | the assigned number carries the prefix and a suffix strictly greater than every existing suffix under it, which parses back while it is an `int` |
| `QueueService.Found` | src/main/java/org/zhuzhu_charging_station_backend/service/QueueService.java:137-138 | the listed ids that have a cached order, no others |
| `QueueService.ReleaseNumbers` | src/main/java/org/zhuzhu_charging_station_backend/service/QueueService.java:140-141 | every suffix handed out by a release is at least 1 |
| `QueueService.ReleaseOne` | src/main/java/org/zhuzhu_charging_station_backend/service/QueueService.java:137-147 | an uncached id changes nothing; a cached one goes to the head of the queue, waiting, at no station, numbered under the prefix; no other order changes and no id is added to the cache |
| `QueueService.ReleaseAll` | src/main/java/org/zhuzhu_charging_station_backend/service/QueueService.java:136-148 | the release loop, first id to last; it has no contract of its own, and the `ReleaseAll*` lemmas and `ReleaseNumbersIncrease` state its properties |
| `QueueService.ReleaseAllKeys` | src/main/java/org/zhuzhu_charging_station_backend/service/QueueService.java:133-149 | a release adds no cached order and drops none |
| `QueueService.ReleaseAllIds` | src/main/java/org/zhuzhu_charging_station_backend/service/QueueService.java:133-149 | every cached order stays stored under its own id |
| `QueueService.ReleaseAllQueue` | src/main/java/org/zhuzhu_charging_station_backend/service/QueueService.java:136-148 | the new queue is the released cached ids in reverse order, followed by the old queue |
| `QueueService.ReleaseAllUntouched` | src/main/java/org/zhuzhu_charging_station_backend/service/QueueService.java:136-138 | an order whose id is not listed is unchanged |
| `QueueService.ReleaseAllReleased` | src/main/java/org/zhuzhu_charging_station_backend/service/QueueService.java:140-145 | a listed cached order is waiting (3), at no station, with a number under RF/RT; nothing else about it changes |
| `QueueService.ReleaseAllHead` | src/main/java/org/zhuzhu_charging_station_backend/service/QueueService.java:140-147 | one number per released order; the head of the new queue holds the last number handed out |
| `QueueService.ReleaseNumbersIncrease` | src/main/java/org/zhuzhu_charging_station_backend/service/QueueService.java:136-148 | the suffixes strictly increase in release order while the previous one is an `int` |
| `QueueService.LastReleasedCounts` | src/main/java/org/zhuzhu_charging_station_backend/service/QueueService.java:140-147 | a head order numbered n under the prefix makes the next scan's maximum at least n |
| `QueueService.WaitingQueues.constructor` | src/main/java/org/zhuzhu_charging_station_backend/service/QueueService.java:17-21 | both queues start empty |
| `QueueService.WaitingQueues.AssignQueueNoWithLock` | src/main/java/org/zhuzhu_charging_station_backend/service/QueueService.java:39-66 | the loop's maximum is `MaxSuffix` of the mode's queue and the result is the corrected `NextQueueNo` of it, which does not wrap at 32 bits as the Java's `int` does (see Findings); neither queue is changed |
| `QueueService.WaitingQueues.AddOrderToQueueWithLock` | src/main/java/org/zhuzhu_charging_station_backend/service/QueueService.java:73-83 | the id is appended at the tail; the rest of the queue and the other queue are unchanged |
| `QueueService.WaitingQueues.AddOrderToQueueHeadWithLock` | src/main/java/org/zhuzhu_charging_station_backend/service/QueueService.java:90-100 | the id is put at the head; the rest of the queue and the other queue are unchanged |
| `QueueService.WaitingQueues.RemoveOrderFromQueueWithLock` | src/main/java/org/zhuzhu_charging_station_backend/service/QueueService.java:107-117 | every occurrence of the id goes, the others keep their order; the other queue is unchanged |
| `QueueService.WaitingQueues.ReleaseStep` | src/main/java/org/zhuzhu_charging_station_backend/service/QueueService.java:137-147 | one listed id on the stores ends in the state `ReleaseOne` gives; the other queue is unchanged and the cache stays keyed by id |
| `QueueService.WaitingQueues.ReleaseOrdersToQueueHead` | src/main/java/org/zhuzhu_charging_station_backend/service/QueueService.java:133-149 | queue and cache end as the release function says (see the ReleaseAll lemmas); the other queue is unchanged |
| `Decimal.Wrap32` | src/main/java/org/zhuzhu_charging_station_backend/service/QueueService.java:62 | the result is an `int`, and an `int` is left as it is |
| `Decimal.ParseInt` | src/main/java/org/zhuzhu_charging_station_backend/service/QueueService.java:54 | Integer.parseInt over ASCII digits (see "## Left out"): a value only for a non-empty text, and only within the `int` range |
| `Decimal.NatToString` | src/main/java/org/zhuzhu_charging_station_backend/service/QueueService.java:62 | a non-empty run of decimal digits |
| `Decimal.DigitsRoundTrip` | src/main/java/org/zhuzhu_charging_station_backend/service/QueueService.java:54-62 | reading the digits written for n gives n |
| `Decimal.ParseRoundTrip` | src/main/java/org/zhuzhu_charging_station_backend/service/QueueService.java:54-62 | parsing the text written for any `int` gives it back |
| `Seqs.RemoveAll` | src/main/java/org/zhuzhu_charging_station_backend/service/QueueService.java:113 | LREM with count 0: the id no longer occurs and every other element keeps its multiplicity |
| `Seqs.RemoveAllAppend` | src/main/java/org/zhuzhu_charging_station_backend/service/QueueService.java:113 | removal works piecewise, so the remaining ids keep their relative order |
| `Seqs.RemoveAllAbsent` | src/main/java/org/zhuzhu_charging_station_backend/service/QueueService.java:113 | removing an absent id changes nothing |
| `Seqs.RemoveFirst` | src/main/java/org/zhuzhu_charging_station_backend/service/OrderService.java:136-140 | List.remove(Object): one occurrence fewer if present, no change if absent |
| `Seqs.RemoveFirstDistinct` | src/main/java/org/zhuzhu_charging_station_backend/service/OrderService.java:136-140 | on a queue without repetitions the id leaves entirely and the queue stays repetition-free |
| `Seqs.Reverse` | src/main/java/org/zhuzhu_charging_station_backend/service/QueueService.java:136-148 | the elements in reverse order |
| `IdGenerator.GenerateUniqueId` | src/main/java/org/zhuzhu_charging_station_backend/util/IdGenerator.java:26-50 | the first candidate not in use, in range, after at most maxAttempts checks, every earlier candidate in use; IllegalState exactly when all maxAttempts collide, at once when maxAttempts <= 0 |
| `IdGenerator.GenerateUniqueUserId` | src/main/java/org/zhuzhu_charging_station_backend/util/IdGenerator.java:26-34 | an eight-digit id in [10000000, 99999999] no user holds, the first such candidate; IllegalState exactly when every attempt collides |
| `IdGenerator.GenerateUniqueStationId` | src/main/java/org/zhuzhu_charging_station_backend/util/IdGenerator.java:42-50 | a six-digit id in [100000, 999999] no station holds, the first such candidate; IllegalState exactly when every attempt collides |
| `Repositories.StationRepository.constructor` | src/main/java/org/zhuzhu_charging_station_backend/repository/ChargingStationRepository.java:6 | the table starts empty |
| `Repositories.StationRepository.FindById` | src/main/java/org/zhuzhu_charging_station_backend/repository/ChargingStationRepository.java:6 | a row exactly when the id is stored, and that row |
| `Repositories.StationRepository.Save` | src/main/java/org/zhuzhu_charging_station_backend/repository/ChargingStationRepository.java:6 | the row of that id is replaced or inserted; a new row goes last in findAll order |
| `Repositories.StationRepository.DeleteById` | src/main/java/org/zhuzhu_charging_station_backend/repository/ChargingStationRepository.java:6 | NotFound and no change for a missing row; otherwise only that row goes |
| `Repositories.StationRepository.ExistsByName` | src/main/java/org/zhuzhu_charging_station_backend/repository/ChargingStationRepository.java:10 | whether some stored row has the name; no contract of its own, and `UpsertChargingStation` relies on it for AlreadyExists |
| `Repositories.UserRepository.constructor` | src/main/java/org/zhuzhu_charging_station_backend/service/OrderService.java:205-212 | the table starts empty |
| `Repositories.UserRepository.FindById` | src/main/java/org/zhuzhu_charging_station_backend/service/OrderService.java:205-206 | a user exactly when the id is stored, and that user |
| `Repositories.UserRepository.Save` | src/main/java/org/zhuzhu_charging_station_backend/service/OrderService.java:212 | the row of that user id is replaced or inserted |
| `Repositories.OrderRepository.constructor` | src/main/java/org/zhuzhu_charging_station_backend/repository/OrderRepository.java:8 | the table starts empty |
| `Repositories.OrderRepository.FindById` | src/main/java/org/zhuzhu_charging_station_backend/repository/OrderRepository.java:8 | an order exactly when the id is stored, and that order |
| `Repositories.OrderRepository.Save` | src/main/java/org/zhuzhu_charging_station_backend/repository/OrderRepository.java:8 | the row of that order id is replaced or inserted |
| `Repositories.OrderRepository.FindByUserId` | src/main/java/org/zhuzhu_charging_station_backend/repository/OrderRepository.java:14 | exactly the persisted orders of the user, each once |
| `OrderService.QueueNoPrefix` | src/main/java/org/zhuzhu_charging_station_backend/service/OrderService.java:64 | "F" exactly for the fast mode, "T" otherwise |
| `OrderService.UpsertOrder` | src/main/java/org/zhuzhu_charging_station_backend/service/OrderService.java:40-68 | a new order is the caller's, waiting, at no station, numbered past every number in its queue, appended and cached; an existing one is NotFound if not cached, Forbidden if not the caller's, else leaves its old mode's queue, takes the new mode and amount, keeps its status, and is renumbered, appended and cached |
| `OrderService.RequeuedOnce` | src/main/java/org/zhuzhu_charging_station_backend/service/OrderService.java:60-65 | removing an id and appending it leaves it in the queue exactly once |
| `OrderService.GetOrder` | src/main/java/org/zhuzhu_charging_station_backend/service/OrderService.java:73-87 | the cached copy if cached, else the database copy; NotFound exactly when neither has it, Forbidden exactly when it is someone else's |
| `OrderService.UserPart` | src/main/java/org/zhuzhu_charging_station_backend/service/OrderService.java:92-110 | the entries of the user, no others |
| `OrderService.ScanListsUserPart` | src/main/java/org/zhuzhu_charging_station_backend/service/OrderService.java:95-98 | a scan result of the user's orders lists exactly the user's part of the map |
| `OrderService.PutOrders` | src/main/java/org/zhuzhu_charging_station_backend/service/OrderService.java:101-107 | putting a listing into a map by id gives the map overridden by the listed orders |
| `OrderService.GetAllOrdersByUser` | src/main/java/org/zhuzhu_charging_station_backend/service/OrderService.java:92-110 | an order is listed exactly when it is in the merge of the user's database orders overridden by their cached ones; one entry per id |
| `OrderService.CancelSlotUpdater` | src/main/java/org/zhuzhu_charging_station_backend/service/OrderService.java:136-140 | never fails; the slot queue loses one occurrence of the id, nothing else changes |
| `OrderService.SettleSlotUpdater` | src/main/java/org/zhuzhu_charging_station_backend/service/OrderService.java:182-198 | the id leaves the slot queue; a present status becomes idle with one more charge and the order's duration and energy added; an order without accruals fails (NullValue) |
| `OrderService.AddToUser` | src/main/java/org/zhuzhu_charging_station_backend/service/OrderService.java:205-212 | one more charge, and the energy, duration and each fee of the order added to the user's totals |
| `OrderService.UserAfterTotals` | src/main/java/org/zhuzhu_charging_station_backend/service/OrderService.java:205-212 | over any run of settled orders, the count grows by their number and each total by exactly their sum |
| `OrderService.Settled` | src/main/java/org/zhuzhu_charging_station_backend/service/OrderService.java:201-202 | a settled order is finished (0) and stamped now; nothing else changes |
| `OrderService.SettleEffect` | src/main/java/org/zhuzhu_charging_station_backend/service/OrderService.java:173-216 | the two-state description `SettleOrder` promises: NotFound with every store unchanged; otherwise queue and slot removal, then user credit, cache delete, persisting and report, with an error ending the run after the steps before it |
| `OrderService.SettleOrder` | src/main/java/org/zhuzhu_charging_station_backend/service/OrderService.java:173-225 | step by step (SettleEffect): NotFound for an uncached order; queue and slot removal, user credit, cache delete, persisting finished, report; a failing step stops there with the earlier steps kept; on success the order is out of the cache |
| `OrderService.SettleTwice` | src/main/java/org/zhuzhu_charging_station_backend/service/OrderService.java:173-216 | after a successful settlement a second one is NotFound and the user's totals are credited exactly once |
| `OrderService.CancelOrder` | src/main/java/org/zhuzhu_charging_station_backend/service/OrderService.java:115-150 | NotFound with every store unchanged; Forbidden and BadState (unless queued or waiting) with every store unchanged; with a non-negative delivered amount exactly the settlement; otherwise every queue entry and one slot entry go, the order is persisted cancelled (4) and leaves the cache; the stores stay valid |
| `OrderService.FinishOrder` | src/main/java/org/zhuzhu_charging_station_backend/service/OrderService.java:155-168 | NotFound, Forbidden, and BadState unless charging (1), each with every store unchanged; otherwise exactly the settlement; the stores stay valid |
| `OrderScheduler.CeilDiv` | src/main/java/org/zhuzhu_charging_station_backend/schedule/OrderScheduler.java:107-109 | the least integer at or above the quotient |
| `OrderScheduler.Remaining` | src/main/java/org/zhuzhu_charging_station_backend/schedule/OrderScheduler.java:102-104 | the charge amount less the delivered amount, a missing delivered amount counting as 0; no contract of its own, and `OrderSeconds` states what it decides |
| `OrderScheduler.OrderSeconds` | src/main/java/org/zhuzhu_charging_station_backend/schedule/OrderScheduler.java:100-110 | never negative; positive exactly when the order is cached and has energy left to charge |
| `OrderScheduler.WaitingTime` | src/main/java/org/zhuzhu_charging_station_backend/schedule/OrderScheduler.java:94-113 | never negative; 0 for the empty queue |
| `OrderScheduler.CalcWaitingTime` | src/main/java/org/zhuzhu_charging_station_backend/schedule/OrderScheduler.java:94-113 | never negative; 0 with no slot or no queue |
| `OrderScheduler.WaitingTimeAppend` | src/main/java/org/zhuzhu_charging_station_backend/schedule/OrderScheduler.java:99-111 | appending an id adds exactly its seconds |
| `OrderScheduler.WaitingTimeBounds` | src/main/java/org/zhuzhu_charging_station_backend/schedule/OrderScheduler.java:94-113 | the sum is 0 exactly when no queued order has energy left, and is at least each order's seconds |
| `OrderScheduler.SlotAt` | src/main/java/org/zhuzhu_charging_station_backend/schedule/OrderScheduler.java:50-51 | the stored slot exactly when the station has one |
| `OrderScheduler.IsCandidate` | src/main/java/org/zhuzhu_charging_station_backend/schedule/OrderScheduler.java:48-57 | a station takes an order of the mode exactly when it has that mode, a slot with a status that is not closed or faulted, a queue, and room when a maximum is set; no contract of its own, and `Best` and `BestIsFirstMinimum` use it |
| `OrderScheduler.Best` | src/main/java/org/zhuzhu_charging_station_backend/schedule/OrderScheduler.java:43-63 | a pick is a candidate station (mode, slot with status not closed or faulted, queue, room) and carries its waiting time |
| `OrderScheduler.BestIsFirstMinimum` | src/main/java/org/zhuzhu_charging_station_backend/schedule/OrderScheduler.java:48-62 | no pick exactly when no station is a candidate; the pick waits no longer than any candidate and strictly less than every earlier one, so ties go to the first |
| `OrderScheduler.InitAllSlots` | src/main/java/org/zhuzhu_charging_station_backend/schedule/OrderScheduler.java:46-47 | after the scan every listed station has its initialised slot and the others are untouched |
| `OrderScheduler.InitOne` | src/main/java/org/zhuzhu_charging_station_backend/schedule/OrderScheduler.java:47 | the station ends with its initialised slot, and every other station reads as before |
| `OrderScheduler.InitAll` | src/main/java/org/zhuzhu_charging_station_backend/schedule/OrderScheduler.java:46-47 | getOrInitSlot over the listed stations in turn; no contract of its own, and `InitAllSlots` states its result |
| `OrderScheduler.CommitUpdater` | src/main/java/org/zhuzhu_charging_station_backend/schedule/OrderScheduler.java:68-75 | fails exactly when there is no queue; an id already queued changes nothing, otherwise it is appended and the waiting time becomes the old queue's plus its seconds |
| `OrderScheduler.CommitAt` | src/main/java/org/zhuzhu_charging_station_backend/schedule/OrderScheduler.java:68-75 | the commit as a locked slot update: no station gains or loses a slot, no other slot changes, the order is in the target queue afterwards, and a target without a queue is left alone |
| `OrderScheduler.AssignOneOutcome` | src/main/java/org/zhuzhu_charging_station_backend/schedule/OrderScheduler.java:37-87 | an admitted order is queued (2) at a first-minimum candidate, in its slot queue and out of the waiting queue; an order no station takes keeps its state and its place |
| `OrderScheduler.AssignOne` | src/main/java/org/zhuzhu_charging_station_backend/schedule/OrderScheduler.java:37-87 | one pending id of the pass; no contract of its own, and `AssignOneOutcome` and `AssignOneKeepsSlotInvariants` state its effect |
| `OrderScheduler.AssignAll` | src/main/java/org/zhuzhu_charging_station_backend/schedule/OrderScheduler.java:36-89 | one mode's pass over its pending ids, in queue order; no contract of its own, and `AssignAllKeepsSlotInvariants` and `AssignAllFrame` state its properties |
| `OrderScheduler.InitAllKeepsSlotInvariants` | src/main/java/org/zhuzhu_charging_station_backend/schedule/OrderScheduler.java:46-47 | initialising slots keeps every slot queue repetition-free and within capacity |
| `OrderScheduler.CommitAtKeepsSlotInvariants` | src/main/java/org/zhuzhu_charging_station_backend/schedule/OrderScheduler.java:57-75 | a commit at a candidate station keeps every slot queue repetition-free and within capacity: only an absent id is appended, and only where the queue has room |
| `OrderScheduler.AssignOneKeepsSlotInvariants` | src/main/java/org/zhuzhu_charging_station_backend/schedule/OrderScheduler.java:57-75 | one admission keeps every slot queue repetition-free and within its station's maximum |
| `OrderScheduler.AssignAllKeepsSlotInvariants` | src/main/java/org/zhuzhu_charging_station_backend/schedule/OrderScheduler.java:27-91 | a whole pass keeps every slot queue repetition-free and within its station's maximum |
| `OrderScheduler.AssignAllFrame` | src/main/java/org/zhuzhu_charging_station_backend/schedule/OrderScheduler.java:27-91 | a pass changes only the orders it was given, keeps the cache keyed by id, and removes from the waiting queue only ids it was given |
| `OrderScheduler.SelectStation` | src/main/java/org/zhuzhu_charging_station_backend/schedule/OrderScheduler.java:43-63 | the scan loop initialises every listed slot and returns the first-minimum pick |
| `OrderScheduler.AssignStep` | src/main/java/org/zhuzhu_charging_station_backend/schedule/OrderScheduler.java:37-87 | one pending id on the stores ends in the state AssignOne gives; the other queue is unchanged |
| `OrderScheduler.AssignMode` | src/main/java/org/zhuzhu_charging_station_backend/schedule/OrderScheduler.java:36-89 | one mode's loop ends in the state the pass function gives; the other queue is unchanged |
| `OrderScheduler.AssignOrdersToSlot` | src/main/java/org/zhuzhu_charging_station_backend/schedule/OrderScheduler.java:27-91 | the fast pass, then the slow pass on the fast pass's slots and orders |
| `ChargingStationService.BuildChargingStationResponse` | src/main/java/org/zhuzhu_charging_station_backend/service/ChargingStationService.java:346-366 | every configuration field (id, name, description, mode, power, service fee, peak, normal and valley price, maximum queue length), the slot as read and the report, stamped now |
| `ChargingStationService.InitSlot` | src/main/java/org/zhuzhu_charging_station_backend/service/ChargingStationService.java:316-344 | every part present is kept; a missing status becomes closed with zero counters, a missing queue empty, a missing waiting time 0 |
| `ChargingStationService.InitSlotIdempotent` | src/main/java/org/zhuzhu_charging_station_backend/service/ChargingStationService.java:316-344 | an initialised slot needs no write and initialises to itself |
| `ChargingStationService.InitSlotKeepsComplete` | src/main/java/org/zhuzhu_charging_station_backend/service/ChargingStationService.java:316-344 | a complete slot is returned as it is |
| `ChargingStationService.GetOrInitSlot` | src/main/java/org/zhuzhu_charging_station_backend/service/ChargingStationService.java:316-344 | returns the initialised slot and writes it back exactly when something was missing |
| `ChargingStationService.BreakUpdater` | src/main/java/org/zhuzhu_charging_station_backend/service/ChargingStationService.java:146-151 | always succeeds with status faulted; counters, queue and waiting time kept |
| `ChargingStationService.FixUpdater` | src/main/java/org/zhuzhu_charging_station_backend/service/ChargingStationService.java:167-178 | succeeds exactly from faulted or no status, to closed with zero counters; BadState otherwise |
| `ChargingStationService.ShutUpdater` | src/main/java/org/zhuzhu_charging_station_backend/service/ChargingStationService.java:194-205 | succeeds exactly when not in use, to closed with zero counters; BadState otherwise |
| `ChargingStationService.OpenUpdater` | src/main/java/org/zhuzhu_charging_station_backend/service/ChargingStationService.java:221-232 | succeeds exactly when neither faulted nor in use, to idle with counters kept; BadState otherwise |
| `ChargingStationService.TransitionsNeverEnterInUse` | src/main/java/org/zhuzhu_charging_station_backend/service/ChargingStationService.java:142-236 | no administrative transition produces status 1 |
| `ChargingStationService.InUseOnlyBreaks` | src/main/java/org/zhuzhu_charging_station_backend/service/ChargingStationService.java:167-232 | an in-use station is refused by fix, shut and open |
| `ChargingStationService.FaultedOpensAfterFix` | src/main/java/org/zhuzhu_charging_station_backend/service/ChargingStationService.java:167-232 | a faulted station does not open directly, but fix then open makes it idle with zero counters |
| `ChargingStationService.ShutClosesFaulted` | src/main/java/org/zhuzhu_charging_station_backend/service/ChargingStationService.java:194-205 | shutting a faulted station closes it |
| `ChargingStationService.ApplyTransition` | src/main/java/org/zhuzhu_charging_station_backend/service/ChargingStationService.java:142-236 | NotFound with no write for an unknown station; otherwise the locked update, its error passed on, else the response with the slot read afterwards |
| `ChargingStationService.BreakChargingStation` | src/main/java/org/zhuzhu_charging_station_backend/service/ChargingStationService.java:142-155 | NotFound for an unknown station; otherwise the break update and the response |
| `ChargingStationService.FixChargingStation` | src/main/java/org/zhuzhu_charging_station_backend/service/ChargingStationService.java:163-182 | NotFound for an unknown station; BadState and no write when the fix is refused; otherwise the fix update and the response |
| `ChargingStationService.ShutChargingStation` | src/main/java/org/zhuzhu_charging_station_backend/service/ChargingStationService.java:190-209 | NotFound for an unknown station; BadState and no write when refused; otherwise the shut update and the response |
| `ChargingStationService.OpenChargingStation` | src/main/java/org/zhuzhu_charging_station_backend/service/ChargingStationService.java:217-236 | NotFound for an unknown station; BadState and no write when refused; otherwise the open update and the response |
| `ChargingStationService.NewStation` | src/main/java/org/zhuzhu_charging_station_backend/service/ChargingStationService.java:53-75 | a station exactly when every not-null column is given; it carries the drawn id, the name, no price periods and a report of zeros stamped now |
| `ChargingStationService.ApplyRequest` | src/main/java/org/zhuzhu_charging_station_backend/service/ChargingStationService.java:102-110 | every field present in the request replaces the station's, every absent one is kept; id, report and price periods (`unitPrices`) are kept, while the peak, normal and valley prices are replaced when the request gives them |
| `ChargingStationService.ApplyRequestLaws` | src/main/java/org/zhuzhu_charging_station_backend/service/ChargingStationService.java:102-110 | an empty request changes nothing, and applying a request twice is applying it once |
| `ChargingStationService.UpsertGuard` | src/main/java/org/zhuzhu_charging_station_backend/service/ChargingStationService.java:92-99 | no status is IllegalState, in use is BadState, otherwise the slot is handed back unchanged |
| `ChargingStationService.GuardLeavesSlots` | src/main/java/org/zhuzhu_charging_station_backend/service/ChargingStationService.java:91-114 | the update path's slot write leaves the store as it was |
| `ChargingStationService.UpsertChargingStation` | src/main/java/org/zhuzhu_charging_station_backend/service/ChargingStationService.java:42-119 | create: AlreadyExists for a taken name; otherwise IllegalState exactly when every id draw is taken, then NullValue exactly when a required field is missing, and success in every other case, with the first free draw as id, the station with a zero report and an initialised slot; update: NotFound for an unknown id, the slot store unchanged, the configuration changed only when the slot exists and the guard passes; an error changes nothing |
| `ChargingStationService.DeleteChargingStation` | src/main/java/org/zhuzhu_charging_station_backend/service/ChargingStationService.java:127-134 | NotFound with nothing changed for a missing row; otherwise the row and the slot go |
| `ChargingStationService.GetAllStationIds` | src/main/java/org/zhuzhu_charging_station_backend/service/ChargingStationService.java:266-271 | every stored station's id exactly once |
| `ChargingStationService.GetChargingStationWithSlot` | src/main/java/org/zhuzhu_charging_station_backend/service/ChargingStationService.java:289-295 | NotFound before any slot is touched; otherwise the response with the initialised slot |
| `ChargingStationService.AddToReport` | src/main/java/org/zhuzhu_charging_station_backend/service/ChargingStationService.java:249-255 | one more charge; duration, energy, charge fee, service fee and total fee each added; stamped now |
| `ChargingStationService.SumAccruals` | src/main/java/org/zhuzhu_charging_station_backend/service/ChargingStationService.java:250-255 | the field-by-field sum of a run of accruals; no contract of its own, and `ReportAfterTotals` uses it as the reference total |
| `ChargingStationService.ReportAfter` | src/main/java/org/zhuzhu_charging_station_backend/service/ChargingStationService.java:242-259 | the report after a run of finished orders, one `updateReportInfo` each; no contract of its own, and `ReportAfterTotals` proves its totals |
| `ChargingStationService.ReportAfterTotals` | src/main/java/org/zhuzhu_charging_station_backend/service/ChargingStationService.java:249-255 | over any run of finished orders, the count grows by their number and each total by exactly their sum |
| `ChargingStationService.UpdateReportInfo` | src/main/java/org/zhuzhu_charging_station_backend/service/ChargingStationService.java:242-259 | NullValue for a null station id or an order without accruals, NotFound for an unknown station; otherwise the station's report takes the order in; an error writes nothing |
| `ChargingStationScheduler.IsInPeriod` | src/main/java/org/zhuzhu_charging_station_backend/schedule/ChargingStationScheduler.java:136-144 | start equal to end covers the whole day, start before end is [start, end), otherwise the period wraps past midnight; no contract of its own, and `IsInPeriodCircular` is its independent characterisation |
| `ChargingStationScheduler.IsInPeriodCircular` | src/main/java/org/zhuzhu_charging_station_backend/schedule/ChargingStationScheduler.java:136-144 | a period covers a time exactly when the time's distance after the start, around the clock, is below the length; equal ends cover the whole day |
| `ChargingStationScheduler.FirstMatch` | src/main/java/org/zhuzhu_charging_station_backend/schedule/ChargingStationScheduler.java:128-132 | the position of a covering period with no covering period before it; none exactly when no period covers the time |
| `ChargingStationScheduler.CalcUnitPrice` | src/main/java/org/zhuzhu_charging_station_backend/schedule/ChargingStationScheduler.java:126-134 | 1.0 for no periods; the first covering period's price; the first period's price when none covers |
| `ChargingStationScheduler.UnitPriceIsListed` | src/main/java/org/zhuzhu_charging_station_backend/schedule/ChargingStationScheduler.java:126-134 | with any periods the price is one of the listed prices |
| `ChargingStationScheduler.Advance` | src/main/java/org/zhuzhu_charging_station_backend/schedule/ChargingStationScheduler.java:100-108 | from any accrual: one second more, exactly power/3600 more energy, unit price times that more charge fee, serviceFee/3600 more service fee, and total = charge + service |
| `ChargingStationScheduler.AdvanceNonDecreasing` | src/main/java/org/zhuzhu_charging_station_backend/schedule/ChargingStationScheduler.java:100-108 | with prices that are not negative no accrual decreases |
| `ChargingStationScheduler.AdvanceNSums` | src/main/java/org/zhuzhu_charging_station_backend/schedule/ChargingStationScheduler.java:89-108 | after n seconds from the start each accrual has grown by its per-second increment n times, and the total is charge plus service fee |
| `ChargingStationScheduler.AdvanceNTotals` | src/main/java/org/zhuzhu_charging_station_backend/schedule/ChargingStationScheduler.java:89-108 | n seconds from the start give exactly n seconds, n·power/3600 energy and the matching fees |
| `ChargingStationScheduler.FullStays` | src/main/java/org/zhuzhu_charging_station_backend/schedule/ChargingStationScheduler.java:63 | leaving the loop at a full queue is the same as visiting the rest |
| `ChargingStationScheduler.FillStep` | src/main/java/org/zhuzhu_charging_station_backend/schedule/ChargingStationScheduler.java:63-75 | one waiting id of the fill; no contract of its own, and `FillStepAdded` states its effect |
| `ChargingStationScheduler.FillAll` | src/main/java/org/zhuzhu_charging_station_backend/schedule/ChargingStationScheduler.java:62-76 | the fill over the waiting ids in turn; no contract of its own, and `FillAllAdded` and `FillAllBounded` state its result |
| `ChargingStationScheduler.FillStepAdded` | src/main/java/org/zhuzhu_charging_station_backend/schedule/ChargingStationScheduler.java:63-74 | one visited id meets the fill's description |
| `ChargingStationScheduler.AddedCompose` | src/main/java/org/zhuzhu_charging_station_backend/schedule/ChargingStationScheduler.java:62-75 | two fills in a row meet the description of the joint fill |
| `ChargingStationScheduler.DistinctConcat` | src/main/java/org/zhuzhu_charging_station_backend/schedule/ChargingStationScheduler.java:66 | two repetition-free, disjoint sequences concatenate to a repetition-free one |
| `ChargingStationScheduler.FillAllAdded` | src/main/java/org/zhuzhu_charging_station_backend/schedule/ChargingStationScheduler.java:62-75 | the old queue is kept as a prefix; each added id was listed, not queued, a cached waiting order, and is now queued (2) without a number and out of the waiting queue; nothing else changes and the queue stays repetition-free |
| `ChargingStationScheduler.FillAllBounded` | src/main/java/org/zhuzhu_charging_station_backend/schedule/ChargingStationScheduler.java:55-63 | a fill never grows a queue past the maximum length |
| `ChargingStationScheduler.QueueFill` | src/main/java/org/zhuzhu_charging_station_backend/schedule/ChargingStationScheduler.java:54-77 | NullValue exactly when no maximum is set; no free place gives the slot, orders and waiting queue back unchanged; otherwise status and waiting time are kept, the queue stays within the maximum, and what was added meets `Added` over the waiting ids read at the start (via `FillAllAdded`) |
| `ChargingStationScheduler.StartCharging` | src/main/java/org/zhuzhu_charging_station_backend/schedule/ChargingStationScheduler.java:89-97 | the order is charging (1), started now, with every accrual at zero |
| `ChargingStationScheduler.ChargingHead` | src/main/java/org/zhuzhu_charging_station_backend/schedule/ChargingStationScheduler.java:80-123 | an empty or missing queue changes nothing; a head id without a cached order is dropped from the queue and nothing else changes; otherwise the slot's status and waiting time are kept and only the head can leave the queue |
| `ChargingStationScheduler.ChargingHeadOutcome` | src/main/java/org/zhuzhu_charging_station_backend/schedule/ChargingStationScheduler.java:89-119 | the head charges one more second; it leaves the queue and the cache, finished and persisted, exactly when it reaches its amount, and stays at the head otherwise; only the head order changes |
| `ChargingStationScheduler.WithWaiting` | src/main/java/org/zhuzhu_charging_station_backend/schedule/ChargingStationScheduler.java:69-74 | only the mode's waiting queue is replaced |
| `ChargingStationScheduler.SkippedUntouched` | src/main/java/org/zhuzhu_charging_station_backend/schedule/ChargingStationScheduler.java:38-42 | a station with no slot, no status, closed or faulted leaves the whole state as it was |
| `ChargingStationScheduler.StationTick` | src/main/java/org/zhuzhu_charging_station_backend/schedule/ChargingStationScheduler.java:36-49 | one station of the tick, with the per-station catch; no contract of its own, and `SkippedUntouched`, `StationTickKeepsStatus` and `StationTickKeepsBounds` state its effect |
| `ChargingStationScheduler.TickAll` | src/main/java/org/zhuzhu_charging_station_backend/schedule/ChargingStationScheduler.java:33-51 | the tick over the listed stations in order; no contract of its own, and `TickKeepsStatus` and `TickKeepsBounds` state its properties |
| `ChargingStationScheduler.TickKeepsStatus` | src/main/java/org/zhuzhu_charging_station_backend/schedule/ChargingStationScheduler.java:33-51 | the tick keeps which stations have slots and every slot's status and waiting time |
| `ChargingStationScheduler.StationTickKeepsStatus` | src/main/java/org/zhuzhu_charging_station_backend/schedule/ChargingStationScheduler.java:36-49 | one station's tick keeps which stations have slots and every slot's status and waiting time |
| `ChargingStationScheduler.StationTickKeepsBounds` | src/main/java/org/zhuzhu_charging_station_backend/schedule/ChargingStationScheduler.java:43-46 | one station's tick keeps every slot queue within its station's maximum |
| `ChargingStationScheduler.TickKeepsBounds` | src/main/java/org/zhuzhu_charging_station_backend/schedule/ChargingStationScheduler.java:33-51 | the tick keeps every slot queue within its station's maximum |
| `ChargingStationScheduler.FillOne` | src/main/java/org/zhuzhu_charging_station_backend/schedule/ChargingStationScheduler.java:64-75 | one waiting id on the stores ends in the state FillStep gives; the other waiting queue is unchanged |
| `ChargingStationScheduler.ProcessQueueFill` | src/main/java/org/zhuzhu_charging_station_backend/schedule/ChargingStationScheduler.java:54-77 | the loop ends in the state QueueFill gives |
| `ChargingStationScheduler.ProcessChargingHeadOrder` | src/main/java/org/zhuzhu_charging_station_backend/schedule/ChargingStationScheduler.java:80-123 | the stores end in the state ChargingHead gives |
| `ChargingStationScheduler.ProcessStation` | src/main/java/org/zhuzhu_charging_station_backend/schedule/ChargingStationScheduler.java:36-49 | the stores end in the state StationTick gives |
| `ChargingStationScheduler.ChargingStationTask` | src/main/java/org/zhuzhu_charging_station_backend/schedule/ChargingStationScheduler.java:33-51 | the loop over the listed stations ends in the state TickAll gives |

## Left out

- Redisson locking: lock leases, tryLock waits and contention are not modelled. Each `*WithLock` call is one atomic step, and `locked` says whether the lock was obtained.
- The race between the admission pass's capacity check and its locked commit is a concurrency property. The model is sequential; `AssignOneKeepsSlotInvariants` is its sequential counterpart.
- Authentication: tokens, the JWT filter, password handling and the user service are not modelled. The caller's user id is a parameter.
- WebSocket push, its sessions and thread pool are not modelled.
- Configuration and framework glue are not modelled: the Spring and Redis configuration, cache annotations, exception-to-response mapping, DTO serialisation and controllers.
- generateUniqueOrderId scales `nextDouble()` randomness. The order id of a new order is a parameter (`newId`).
- Random draws of the other two generators are an input sequence.
- Double and BigDecimal rounding are not reproduced. Energy and fees are `real`, and `power/3600.0` is exact.
- The wall clock is a parameter: `now` for timestamps, a time of day in seconds for the price lookup.
- Logging is not modelled. The tick's per-station catch is modelled as "the failing station's remaining steps do not happen": see `StationTick`.
- The cron schedule of both schedulers (every second) is not modelled. Each method models one run.
- getAllChargingStationWithSlot and the unused repository query findByChargingStationId are not modelled. They only map over the stations.
- A station with zero or negative power is not modelled; `Power` is positive. The source would divide by zero in the waiting-time estimate.
- A request whose mode or charge amount is null is not modelled; `OrderRequest` carries both.
- `ChargingStationService.NewStation`: the model assumes a create request gives every field the station row needs. It reports NullValue and writes nothing when one of them is missing. The station's fee and price fields are plain `real`s, never null. The `ChargingStation` entity (`entity/ChargingStation.java`) is an older revision and declares no fee or price columns, while the request's fields are nullable `Double`s. So for a null fee or price the Java would store the null. For a null name, mode or power, the entity's columns are `nullable = false` (`entity/ChargingStation.java:11-18`), so the database rejects the row. That happens at `save` (`service/ChargingStationService.java:76`) at the earliest. It may happen only at commit, after `setSlot` (`:80`) has already written the slot, which the model's NullValue does not capture.
- `Decimal.ParseInt`: reads only the ASCII digits '0'-'9'. Java's `Integer.parseInt` accepts every Unicode decimal digit through `Character.digit`, so a cached queue number such as "F٣" counts as 3 in the Java scan but is skipped by the model's `MaxSuffix`. Every queue number this code writes is a prefix followed by the ASCII digits of an `int` (`service/QueueService.java:62`, `service/OrderService.java:64`), so only numbers written outside this code can differ.
- A station's price periods (`unitPrices`) are never written by the code modelled here, so they stay empty and every tick charges `DEFAULT_UNIT_PRICE`. The lookup over a non-empty period list is still modelled (`CalcUnitPrice`, `FirstMatch`) for a station that has periods.
- An order's five accrual fields (delivered energy, duration, charge fee, service fee, total fee) are one `Option<Accrual>`: all present or all missing. In the Java they are separately nullable. The only writer, the tick's start of charging, sets all five together, so a mixture arises only in data written outside this code.
- A station status's code is never null: `StationStatus.code` is a plain `int`. Its counters stay optional, and a missing status as a whole is `slot.status == None`. In the Java, `getStatus()` of a status object can be null. The transition guards then let the change through (`service/ChargingStationService.java:170`, `:197`, `:224`, `:227`), and the tick's unboxing at `schedule/ChargingStationScheduler.java:39` throws. The model does not reach those cases.
- The `Long.parseLong` step of the tick's older revision is dropped. Its order ids are the services' strings.
- The Redis set of that revision is replaced by the list queue: the fill and the head step follow queue order, not set iteration order.
- `OrderScheduler.WithinCapacity` / `OrderScheduler.AssignAllKeepsSlotInvariants`: the capacity invariant reads "empty or at most the maximum". A station can be configured with a negative maximum, which no queue meets.

## Findings

| source | as written | input that shows it | evidently intended | confidence | as-written member | corrected member |
|---|---|---|---|---|---|---|
| src/main/java/org/zhuzhu_charging_station_backend/service/QueueService.java:62 | `prefix + (maxNo + 1)` adds in 32-bit `int`, so at the largest `int` the new suffix wraps to -2147483648 | a queued cached order numbered "F2147483647" under prefix "F" | a number greater than every number in the queue | not executed | `QueueService.QueueNoWrapsAtIntMax` (about `QueueService.NextQueueNoAsWritten`) | `QueueService.NextQueueNoExceeds` (about `QueueService.NextQueueNo`, which `AssignQueueNoWithLock` uses) |
