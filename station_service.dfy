/**
 * Station administration: create and update of the configuration, the four
 * status transitions (break, fix, shut, open) as locked slot updates, the
 * per-station report, and the slot defaults filled in on first read.
 */
module ChargingStationService {
  import opened Common
  import opened Entities
  import opened Seqs
  import opened ChargingStationSlotService
  import opened Repositories
  import opened IdGenerator

  /** How many candidate ids a station create tries. */
  const STATION_ID_ATTEMPTS: int := 10

  /** ChargingStationUpsertRequest; `id` None asks for a create. */
  datatype UpsertRequest = UpsertRequest(
    id: Option<int>,
    name: Option<string>,
    description: Option<string>,
    mode: Option<int>,
    power: Option<Power>,
    serviceFee: Option<real>,
    peakPrice: Option<real>,
    normalPrice: Option<real>,
    valleyPrice: Option<real>,
    maxQueueLength: Option<int>)

  /** ChargingStationResponse: the configuration, the slot as read, and the report. */
  datatype StationResponse = StationResponse(
    updatedAt: int,
    id: int,
    name: string,
    description: Option<string>,
    mode: int,
    power: Power,
    serviceFee: real,
    peakPrice: real,
    normalPrice: real,
    valleyPrice: real,
    maxQueueLength: Option<int>,
    slot: Option<Slot>,
    report: ReportInfo)

  /** buildChargingStationResponse, stamped with the supplied time. */
  function BuildChargingStationResponse(station: ChargingStation, slot: Option<Slot>, now: int): (r: StationResponse)
    ensures r.id == station.id && r.name == station.name && r.mode == station.mode && r.power == station.power
    ensures r.slot == slot && r.report == station.report && r.updatedAt == now
    ensures r.maxQueueLength == station.maxQueueLength && r.description == station.description
    ensures r.serviceFee == station.serviceFee
    ensures r.peakPrice == station.peakPrice && r.normalPrice == station.normalPrice && r.valleyPrice == station.valleyPrice
  {
    StationResponse(now, station.id, station.name, station.description, station.mode, station.power,
      station.serviceFee, station.peakPrice, station.normalPrice, station.valleyPrice,
      station.maxQueueLength, slot, station.report)
  }

  // ---------------------------------------------------------------- getOrInitSlot

  /** The status a missing one is initialised to: closed, with zero counters. */
  const CLOSED_RESET: StationStatus := StationStatus(CLOSED, Some(0), Some(0), Some(0.0))

  /** Whether getOrInitSlot has something to fill in (and therefore writes). */
  predicate NeedsInit(slot: Option<Slot>) {
    slot.None? || slot.value.status.None? || slot.value.queue.None? || slot.value.waitingTime.None?
  }

  /** The slot getOrInitSlot returns: every missing part replaced by its default. */
  function InitSlot(slot: Option<Slot>): (r: Slot)
    ensures r.status.Some? && r.queue.Some? && r.waitingTime.Some?
    ensures slot.Some? && slot.value.status.Some? ==> r.status == slot.value.status
    ensures slot.Some? && slot.value.queue.Some? ==> r.queue == slot.value.queue
    ensures slot.Some? && slot.value.waitingTime.Some? ==> r.waitingTime == slot.value.waitingTime
    ensures slot.None? || slot.value.status.None? ==> r.status == Some(CLOSED_RESET)
    ensures slot.None? || slot.value.queue.None? ==> r.queue == Some([])
    ensures slot.None? || slot.value.waitingTime.None? ==> r.waitingTime == Some(0)
  {
    var s := slot.GetOr(Slot(None, None, None));
    Slot(
      if s.status.Some? then s.status else Some(CLOSED_RESET),
      if s.queue.Some? then s.queue else Some([]),
      if s.waitingTime.Some? then s.waitingTime else Some(0))
  }

  /** A second initialisation finds nothing to fill in and returns the same slot. */
  lemma InitSlotIdempotent(slot: Option<Slot>)
    ensures !NeedsInit(Some(InitSlot(slot)))
    ensures InitSlot(Some(InitSlot(slot))) == InitSlot(slot)
  {
  }

  /** A complete slot is returned as it is. */
  lemma InitSlotKeepsComplete(slot: Option<Slot>)
    requires !NeedsInit(slot)
    ensures InitSlot(slot) == slot.value
  {
  }

  /** getOrInitSlot: write back only when something was missing. */
  method GetOrInitSlot(id: int, slots: SlotStore) returns (slot: Slot)
    modifies slots
    ensures slot == InitSlot(old(slots.GetSlot(id)))
    ensures slots.slots == if NeedsInit(old(slots.GetSlot(id))) then old(slots.slots)[id := slot] else old(slots.slots)
  {
    var stored := slots.GetSlot(id);
    var needSet := false;
    var s: Slot;
    if stored.None? {
      s := Slot(None, None, None);
      needSet := true;
    } else {
      s := stored.value;
    }
    if s.status.None? {
      s := s.(status := Some(CLOSED_RESET));
      needSet := true;
    }
    if s.waitingTime.None? {
      s := s.(waitingTime := Some(0));
      needSet := true;
    }
    if s.queue.None? {
      s := s.(queue := Some([]));
      needSet := true;
    }
    if needSet {
      slots.SetSlot(id, s);
    }
    slot := s;
  }

  // ---------------------------------------------------------------- status transitions

  /** The status code of a slot, None when it has no status object. */
  function Code(slot: Slot): Option<int> {
    if slot.status.Some? then Some(slot.status.value.code) else None
  }

  /** breakChargingStation's updater: faulted, always; counters kept. */
  function BreakUpdater(slot: Slot): (r: Result<Slot>)
    ensures r.Ok? && Code(r.value) == Some(FAULTED)
    ensures r.value.queue == slot.queue && r.value.waitingTime == slot.waitingTime
    ensures slot.status.Some? ==> r.value.status == Some(slot.status.value.(code := FAULTED))
  {
    var status := if slot.status.Some? then slot.status.value else StationStatus(FAULTED, None, None, None);
    Ok(slot.(status := Some(status.(code := FAULTED))))
  }

  /** fixChargingStation's updater: only a faulted (or status-less) station is repaired, to closed with zero counters. */
  function FixUpdater(slot: Slot): (r: Result<Slot>)
    ensures r.Ok? <==> Code(slot) == None || Code(slot) == Some(FAULTED)
    ensures r.Err? ==> r.error == BadState
    ensures r.Ok? ==> r.value == slot.(status := Some(CLOSED_RESET))
  {
    if slot.status.Some? && slot.status.value.code != FAULTED then Err(BadState)
    else Ok(slot.(status := Some(CLOSED_RESET)))
  }

  /** shutChargingStation's updater: anything but an in-use station is closed with zero counters. */
  function ShutUpdater(slot: Slot): (r: Result<Slot>)
    ensures r.Ok? <==> Code(slot) != Some(IN_USE)
    ensures r.Err? ==> r.error == BadState
    ensures r.Ok? ==> r.value == slot.(status := Some(CLOSED_RESET))
  {
    if slot.status.Some? && slot.status.value.code == IN_USE then Err(BadState)
    else Ok(slot.(status := Some(CLOSED_RESET)))
  }

  /** openChargingStation's updater: neither a faulted nor an in-use station opens; counters kept. */
  function OpenUpdater(slot: Slot): (r: Result<Slot>)
    ensures r.Ok? <==> Code(slot) != Some(FAULTED) && Code(slot) != Some(IN_USE)
    ensures r.Err? ==> r.error == BadState
    ensures r.Ok? ==> Code(r.value) == Some(IDLE) && r.value.queue == slot.queue && r.value.waitingTime == slot.waitingTime
    ensures r.Ok? && slot.status.Some? ==> r.value.status == Some(slot.status.value.(code := IDLE))
  {
    if slot.status.Some? && slot.status.value.code == FAULTED then Err(BadState)
    else if slot.status.Some? && slot.status.value.code == IN_USE then Err(BadState)
    else
      var status := if slot.status.Some? then slot.status.value else StationStatus(IDLE, None, None, None);
      Ok(slot.(status := Some(status.(code := IDLE))))
  }

  /** No administrative transition puts a station in use; only charging does. */
  lemma TransitionsNeverEnterInUse(slot: Slot)
    ensures Code(BreakUpdater(slot).value) != Some(IN_USE)
    ensures FixUpdater(slot).Ok? ==> Code(FixUpdater(slot).value) != Some(IN_USE)
    ensures ShutUpdater(slot).Ok? ==> Code(ShutUpdater(slot).value) != Some(IN_USE)
    ensures OpenUpdater(slot).Ok? ==> Code(OpenUpdater(slot).value) != Some(IN_USE)
  {
  }

  /** An in-use station can only be marked faulted; fix, shut and open all refuse it. */
  lemma InUseOnlyBreaks(slot: Slot)
    requires Code(slot) == Some(IN_USE)
    ensures FixUpdater(slot) == Err(BadState)
    ensures ShutUpdater(slot) == Err(BadState)
    ensures OpenUpdater(slot) == Err(BadState)
  {
  }

  /** A faulted station does not open directly, but a fix followed by an open makes it idle with zero counters. */
  lemma FaultedOpensAfterFix(slot: Slot)
    requires Code(slot) == Some(FAULTED)
    ensures OpenUpdater(slot).Err?
    ensures FixUpdater(slot).Ok? && OpenUpdater(FixUpdater(slot).value).Ok?
    ensures OpenUpdater(FixUpdater(slot).value).value.status == Some(StationStatus(IDLE, Some(0), Some(0), Some(0.0)))
  {
  }

  /** Shutting a faulted station closes it without a repair. */
  lemma ShutClosesFaulted(slot: Slot)
    requires Code(slot) == Some(FAULTED)
    ensures ShutUpdater(slot).Ok? && Code(ShutUpdater(slot).value) == Some(CLOSED)
  {
  }

  /**
   * The common shape of the four transitions: NotFound for an unknown station,
   * otherwise the updater applied under the lock, its exception passed on, and
   * the station returned with the slot read afterwards.
   */
  method ApplyTransition(id: int, updater: Slot -> Result<Slot>, repo: StationRepository, slots: SlotStore, now: int)
    returns (r: Result<StationResponse>)
    modifies slots
    ensures id !in repo.stations ==> r == Err(NotFound) && slots.slots == old(slots.slots)
    ensures id in repo.stations ==> slots.slots == ApplyUpdate(old(slots.slots), id, updater, true)
    ensures id in repo.stations && id in old(slots.slots) && updater(old(slots.slots)[id]).Err? ==>
      r == Err(updater(old(slots.slots)[id]).error)
    ensures id in repo.stations && (id !in old(slots.slots) || updater(old(slots.slots)[id]).Ok?) ==>
      r == Ok(BuildChargingStationResponse(repo.stations[id], slots.GetSlot(id), now))
  {
    var station := repo.FindById(id);
    if station.None? {
      return Err(NotFound);
    }
    var updated := slots.UpdateSlotWithLock(id, updater, true);
    if updated.Err? {
      return Err(updated.error);
    }
    var slot := slots.GetSlot(id);
    r := Ok(BuildChargingStationResponse(station.value, slot, now));
  }

  /** breakChargingStation. */
  method BreakChargingStation(id: int, repo: StationRepository, slots: SlotStore, now: int)
    returns (r: Result<StationResponse>)
    modifies slots
    ensures id !in repo.stations ==> r == Err(NotFound) && slots.slots == old(slots.slots)
    ensures id in repo.stations ==> slots.slots == ApplyUpdate(old(slots.slots), id, BreakUpdater, true)
    ensures id in repo.stations ==> r == Ok(BuildChargingStationResponse(repo.stations[id], slots.GetSlot(id), now))
  {
    r := ApplyTransition(id, BreakUpdater, repo, slots, now);
  }

  /** fixChargingStation. */
  method FixChargingStation(id: int, repo: StationRepository, slots: SlotStore, now: int)
    returns (r: Result<StationResponse>)
    modifies slots
    ensures id !in repo.stations ==> r == Err(NotFound) && slots.slots == old(slots.slots)
    ensures id in repo.stations ==> slots.slots == ApplyUpdate(old(slots.slots), id, FixUpdater, true)
    ensures id in repo.stations && id in old(slots.slots) && FixUpdater(old(slots.slots)[id]).Err? ==> r == Err(BadState)
    ensures id in repo.stations && (id !in old(slots.slots) || FixUpdater(old(slots.slots)[id]).Ok?) ==>
      r == Ok(BuildChargingStationResponse(repo.stations[id], slots.GetSlot(id), now))
  {
    r := ApplyTransition(id, FixUpdater, repo, slots, now);
  }

  /** shutChargingStation. */
  method ShutChargingStation(id: int, repo: StationRepository, slots: SlotStore, now: int)
    returns (r: Result<StationResponse>)
    modifies slots
    ensures id !in repo.stations ==> r == Err(NotFound) && slots.slots == old(slots.slots)
    ensures id in repo.stations ==> slots.slots == ApplyUpdate(old(slots.slots), id, ShutUpdater, true)
    ensures id in repo.stations && id in old(slots.slots) && ShutUpdater(old(slots.slots)[id]).Err? ==> r == Err(BadState)
    ensures id in repo.stations && (id !in old(slots.slots) || ShutUpdater(old(slots.slots)[id]).Ok?) ==>
      r == Ok(BuildChargingStationResponse(repo.stations[id], slots.GetSlot(id), now))
  {
    r := ApplyTransition(id, ShutUpdater, repo, slots, now);
  }

  /** openChargingStation. */
  method OpenChargingStation(id: int, repo: StationRepository, slots: SlotStore, now: int)
    returns (r: Result<StationResponse>)
    modifies slots
    ensures id !in repo.stations ==> r == Err(NotFound) && slots.slots == old(slots.slots)
    ensures id in repo.stations ==> slots.slots == ApplyUpdate(old(slots.slots), id, OpenUpdater, true)
    ensures id in repo.stations && id in old(slots.slots) && OpenUpdater(old(slots.slots)[id]).Err? ==> r == Err(BadState)
    ensures id in repo.stations && (id !in old(slots.slots) || OpenUpdater(old(slots.slots)[id]).Ok?) ==>
      r == Ok(BuildChargingStationResponse(repo.stations[id], slots.GetSlot(id), now))
  {
    r := ApplyTransition(id, OpenUpdater, repo, slots, now);
  }

  // ---------------------------------------------------------------- upsert and delete

  /** Whether a create request gives every field the station row cannot leave null. */
  predicate CreateFieldsPresent(request: UpsertRequest) {
    request.name.Some? && request.mode.Some? && request.power.Some? && request.serviceFee.Some?
    && request.peakPrice.Some? && request.normalPrice.Some? && request.valleyPrice.Some?
  }

  /** Whether every one of a create's id draws hits an existing station. */
  predicate AllDrawsTaken(stations: map<int, ChargingStation>, draws: seq<int>)
    requires STATION_ID_ATTEMPTS <= |draws|
  {
    forall j :: 0 <= j < STATION_ID_ATTEMPTS ==> MIN_ID_SIX + draws[j] in stations
  }

  /** The station a create request describes; None when a not-null column would be null. */
  function NewStation(request: UpsertRequest, id: int, now: int): (r: Option<ChargingStation>)
    ensures r.Some? <==> CreateFieldsPresent(request)
    ensures r.Some? ==> r.value.id == id && r.value.name == request.name.value && r.value.unitPrices == []
    ensures r.Some? ==> r.value.report == ReportInfo(Some(now), 0, 0, 0.0, 0.0, 0.0, 0.0)
  {
    if request.name.Some? && request.mode.Some? && request.power.Some? && request.serviceFee.Some?
      && request.peakPrice.Some? && request.normalPrice.Some? && request.valleyPrice.Some?
    then
      Some(ChargingStation(id, request.name.value, request.description, request.mode.value, request.power.value,
        request.serviceFee.value, request.peakPrice.value, request.normalPrice.value, request.valleyPrice.value,
        request.maxQueueLength, [], ReportInfo(Some(now), 0, 0, 0.0, 0.0, 0.0, 0.0)))
    else None
  }

  /** The update path's field copy: every request field that is present replaces the station's. */
  function ApplyRequest(station: ChargingStation, request: UpsertRequest): (r: ChargingStation)
    ensures r.id == station.id && r.report == station.report && r.unitPrices == station.unitPrices
    ensures r.name == request.name.GetOr(station.name)
    ensures r.description == if request.description.Some? then request.description else station.description
    ensures r.mode == request.mode.GetOr(station.mode)
    ensures r.power == request.power.GetOr(station.power)
    ensures r.serviceFee == request.serviceFee.GetOr(station.serviceFee)
    ensures r.peakPrice == request.peakPrice.GetOr(station.peakPrice)
    ensures r.normalPrice == request.normalPrice.GetOr(station.normalPrice)
    ensures r.valleyPrice == request.valleyPrice.GetOr(station.valleyPrice)
    ensures r.maxQueueLength == if request.maxQueueLength.Some? then request.maxQueueLength else station.maxQueueLength
  {
    station.(
      name := request.name.GetOr(station.name),
      description := if request.description.Some? then request.description else station.description,
      mode := request.mode.GetOr(station.mode),
      power := request.power.GetOr(station.power),
      serviceFee := request.serviceFee.GetOr(station.serviceFee),
      peakPrice := request.peakPrice.GetOr(station.peakPrice),
      normalPrice := request.normalPrice.GetOr(station.normalPrice),
      valleyPrice := request.valleyPrice.GetOr(station.valleyPrice),
      maxQueueLength := if request.maxQueueLength.Some? then request.maxQueueLength else station.maxQueueLength)
  }

  /** A request with no fields changes nothing, and applying a request twice is applying it once. */
  lemma ApplyRequestLaws(station: ChargingStation, request: UpsertRequest)
    ensures ApplyRequest(ApplyRequest(station, request), request) == ApplyRequest(station, request)
    ensures ApplyRequest(station, UpsertRequest(request.id, None, None, None, None, None, None, None, None, None)) == station
  {
  }

  /** The update path's updater: no status is an error, an in-use station may not change; the slot is written back as read. */
  function UpsertGuard(slot: Slot): (r: Result<Slot>)
    ensures slot.status.None? ==> r == Err(IllegalState)
    ensures Code(slot) == Some(IN_USE) ==> r == Err(BadState)
    ensures slot.status.Some? && Code(slot) != Some(IN_USE) ==> r == Ok(slot)
  {
    if slot.status.None? then Err(IllegalState)
    else if slot.status.value.code == IN_USE then Err(BadState)
    else Ok(slot)
  }

  /** An updater that hands the slot back unchanged leaves the store as it was. */
  lemma GuardLeavesSlots(slots: map<int, Slot>, id: int)
    ensures ApplyUpdate(slots, id, UpsertGuard, true) == slots
  {
  }

  /**
   * upsertChargingStation. A create checks the name, draws an id, stores the
   * station with a zero report and initialises its slot; `draws` are the
   * generator's random values. An update needs the station, and changes its
   * configuration only when the slot exists and the guard lets it through.
   */
  method UpsertChargingStation(request: UpsertRequest, repo: StationRepository, slots: SlotStore, draws: seq<int>, now: int)
    returns (r: Result<StationResponse>)
    requires repo.Valid()
    requires DrawsFit(draws, MIN_ID_SIX, MAX_ID_SIX) && STATION_ID_ATTEMPTS <= |draws|
    modifies repo, slots
    ensures repo.Valid()
    ensures r.Err? ==> repo.stations == old(repo.stations) && slots.slots == old(slots.slots)
    ensures request.id.None? && request.name.Some? && old(repo.ExistsByName(request.name.value)) ==> r == Err(AlreadyExists)
    ensures request.id.None? && !(request.name.Some? && old(repo.ExistsByName(request.name.value))) ==>
      && (AllDrawsTaken(old(repo.stations), draws) ==> r == Err(IllegalState))
      && (!AllDrawsTaken(old(repo.stations), draws) && !CreateFieldsPresent(request) ==> r == Err(NullValue))
      && (!AllDrawsTaken(old(repo.stations), draws) && CreateFieldsPresent(request) ==> r.Ok?)
    ensures request.id.None? && r.Ok? ==>
      exists k :: 0 <= k < STATION_ID_ATTEMPTS && r.value.id == MIN_ID_SIX + draws[k]
        && forall j :: 0 <= j < k ==> MIN_ID_SIX + draws[j] in old(repo.stations)
    ensures request.id.None? && r.Ok? ==>
      && r.value.id !in old(repo.stations)
      && MIN_ID_SIX <= r.value.id <= MAX_ID_SIX
      && NewStation(request, r.value.id, now).Some?
      && repo.stations == old(repo.stations)[r.value.id := NewStation(request, r.value.id, now).value]
      && slots.slots == old(slots.slots)[r.value.id := InitSlot(old(slots.GetSlot(r.value.id)))]
      && r.value == BuildChargingStationResponse(NewStation(request, r.value.id, now).value, Some(InitSlot(old(slots.GetSlot(r.value.id)))), now)
    ensures request.id.Some? ==> slots.slots == old(slots.slots)
    ensures request.id.Some? && request.id.value !in old(repo.stations) ==> r == Err(NotFound)
    ensures request.id.Some? && request.id.value in old(repo.stations) ==>
      var id := request.id.value;
      var station := old(repo.stations)[id];
      if id !in old(slots.slots) then
        r == Ok(BuildChargingStationResponse(station, None, now)) && repo.stations == old(repo.stations)
      else if UpsertGuard(old(slots.slots)[id]).Err? then
        r == Err(UpsertGuard(old(slots.slots)[id]).error)
      else
        && repo.stations == old(repo.stations)[id := ApplyRequest(station, request)]
        && r == Ok(BuildChargingStationResponse(ApplyRequest(station, request), Some(old(slots.slots)[id]), now))
  {
    if request.id.None? {
      if request.name.Some? && repo.ExistsByName(request.name.value) {
        return Err(AlreadyExists);
      }
      var generated, _ := GenerateUniqueStationId(repo.stations.Keys, draws, STATION_ID_ATTEMPTS);
      if generated.Err? {
        return Err(generated.error);
      }
      var id := generated.value;
      var station := NewStation(request, id, now);
      if station.None? {
        return Err(NullValue);
      }
      repo.Save(station.value);
      var slot := GetOrInitSlot(id, slots);
      slots.SetSlot(id, slot);
      r := Ok(BuildChargingStationResponse(station.value, Some(slot), now));
    } else {
      var id := request.id.value;
      var found := repo.FindById(id);
      if found.None? {
        return Err(NotFound);
      }
      var station := found.value;
      GuardLeavesSlots(slots.slots, id);
      var updated := slots.UpdateSlotWithLock(id, UpsertGuard, true);
      if updated.Err? {
        return Err(updated.error);
      }
      if updated.value {
        station := ApplyRequest(station, request);
        repo.Save(station);
      }
      var slot := slots.GetSlot(id);
      r := Ok(BuildChargingStationResponse(station, slot, now));
    }
  }

  /** deleteChargingStation: the row and then the slot; a missing row is NotFound and the slot stays. */
  method DeleteChargingStation(id: int, repo: StationRepository, slots: SlotStore) returns (r: Result<bool>)
    requires repo.Valid()
    modifies repo, slots
    ensures repo.Valid()
    ensures id !in old(repo.stations) ==> r == Err(NotFound) && repo.stations == old(repo.stations) && slots.slots == old(slots.slots)
    ensures id in old(repo.stations) ==> r == Ok(true) && repo.stations == old(repo.stations) - {id} && slots.slots == old(slots.slots) - {id}
  {
    r := repo.DeleteById(id);
    if r.Err? {
      return;
    }
    slots.RemoveSlot(id);
  }

  /** getAllStationIds: every stored station's id once, in findAll order. */
  function GetAllStationIds(repo: StationRepository): (ids: seq<int>)
    reads repo
    requires repo.Valid()
    ensures Distinct(ids)
    ensures forall id :: id in ids <==> id in repo.stations
  {
    repo.ids
  }

  /** getChargingStationWithSlot: NotFound before any slot is touched; otherwise the slot is initialised. */
  method GetChargingStationWithSlot(id: int, repo: StationRepository, slots: SlotStore, now: int)
    returns (r: Result<StationResponse>)
    modifies slots
    ensures id !in repo.stations ==> r == Err(NotFound) && slots.slots == old(slots.slots)
    ensures id in repo.stations ==>
      && r == Ok(BuildChargingStationResponse(repo.stations[id], Some(InitSlot(old(slots.GetSlot(id)))), now))
      && slots.slots == if NeedsInit(old(slots.GetSlot(id))) then old(slots.slots)[id := InitSlot(old(slots.GetSlot(id)))] else old(slots.slots)
  {
    var station := repo.FindById(id);
    if station.None? {
      return Err(NotFound);
    }
    var slot := GetOrInitSlot(id, slots);
    r := Ok(BuildChargingStationResponse(station.value, Some(slot), now));
  }

  // ---------------------------------------------------------------- report

  /** The report after one more finished order: one more charge and each accrued amount added. */
  function AddToReport(report: ReportInfo, a: Accrual, now: int): (r: ReportInfo)
    ensures r.updatedAt == Some(now)
    ensures r.totalChargeCount == report.totalChargeCount + 1
    ensures r.totalChargeTime == report.totalChargeTime + a.chargeDuration
    ensures r.totalChargeAmount == report.totalChargeAmount + a.actualCharge
    ensures r.totalChargeFee == report.totalChargeFee + a.chargeFee
    ensures r.totalServiceFee == report.totalServiceFee + a.serviceFee
    ensures r.totalFee == report.totalFee + a.totalFee
  {
    ReportInfo(Some(now),
      report.totalChargeCount + 1,
      report.totalChargeTime + a.chargeDuration,
      report.totalChargeAmount + a.actualCharge,
      report.totalChargeFee + a.chargeFee,
      report.totalServiceFee + a.serviceFee,
      report.totalFee + a.totalFee)
  }

  /** The componentwise sum of accruals. */
  function SumAccruals(accs: seq<Accrual>): Accrual {
    if accs == [] then Accrual(0.0, 0, 0.0, 0.0, 0.0)
    else
      var s := SumAccruals(accs[..|accs| - 1]);
      var a := accs[|accs| - 1];
      Accrual(s.actualCharge + a.actualCharge, s.chargeDuration + a.chargeDuration, s.chargeFee + a.chargeFee,
        s.serviceFee + a.serviceFee, s.totalFee + a.totalFee)
  }

  /** The report after a run of finished orders, in order. */
  function ReportAfter(report: ReportInfo, accs: seq<Accrual>, now: int): ReportInfo {
    if accs == [] then report else AddToReport(ReportAfter(report, accs[..|accs| - 1], now), accs[|accs| - 1], now)
  }

  /** The report counts every finished order once and totals exactly what they accrued. */
  lemma {:induction false} ReportAfterTotals(report: ReportInfo, accs: seq<Accrual>, now: int)
    ensures var r := ReportAfter(report, accs, now);
            var s := SumAccruals(accs);
            && r.totalChargeCount == report.totalChargeCount + |accs|
            && r.totalChargeTime == report.totalChargeTime + s.chargeDuration
            && r.totalChargeAmount == report.totalChargeAmount + s.actualCharge
            && r.totalChargeFee == report.totalChargeFee + s.chargeFee
            && r.totalServiceFee == report.totalServiceFee + s.serviceFee
            && r.totalFee == report.totalFee + s.totalFee
  {
    if accs != [] {
      ReportAfterTotals(report, accs[..|accs| - 1], now);
    }
  }

  /**
   * updateReportInfo: NullValue for a null station id (findById(null)) or an
   * order without accruals (the unboxing of chargeDuration), NotFound for an
   * unknown station; otherwise the station's report takes the order in.
   */
  method UpdateReportInfo(stationId: Option<int>, order: Order, repo: StationRepository, now: int) returns (r: Result<bool>)
    requires repo.Valid()
    modifies repo
    ensures repo.Valid()
    ensures r.Err? ==> repo.stations == old(repo.stations)
    ensures stationId.None? ==> r == Err(NullValue)
    ensures stationId.Some? && stationId.value !in old(repo.stations) ==> r == Err(NotFound)
    ensures stationId.Some? && stationId.value in old(repo.stations) && order.accrual.None? ==> r == Err(NullValue)
    ensures stationId.Some? && stationId.value in old(repo.stations) && order.accrual.Some? ==>
      var cs := old(repo.stations)[stationId.value];
      r == Ok(true) && repo.stations == old(repo.stations)[stationId.value := cs.(report := AddToReport(cs.report, order.accrual.value, now))]
  {
    if stationId.None? {
      return Err(NullValue);
    }
    var cs := repo.FindById(stationId.value);
    if cs.None? {
      return Err(NotFound);
    }
    if order.accrual.None? {
      return Err(NullValue);
    }
    repo.Save(cs.value.(report := AddToReport(cs.value.report, order.accrual.value, now)));
    r := Ok(true);
  }
}
