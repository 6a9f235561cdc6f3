/** The slot store: the runtime record of each station, keyed by station id ("slot:" + id). */
module ChargingStationSlotService {
  import opened Common
  import opened Entities

  /**
   * What one locked read-modify-write does to the store: nothing when the lock
   * is not obtained or the slot is missing, the updater's slot when it returns
   * one, and nothing when it fails (the exception skips the write-back).
   */
  function ApplyUpdate(slots: map<int, Slot>, stationId: int, updater: Slot -> Result<Slot>, locked: bool): (r: map<int, Slot>)
    ensures !locked || stationId !in slots ==> r == slots
    ensures r.Keys == slots.Keys
    ensures forall id :: id in slots && id != stationId ==> r[id] == slots[id]
    ensures locked && stationId in slots && updater(slots[stationId]).Ok? ==> r[stationId] == updater(slots[stationId]).value
    ensures locked && stationId in slots && updater(slots[stationId]).Err? ==> r == slots
  {
    if locked && stationId in slots then
      match updater(slots[stationId])
      case Ok(s) => slots[stationId := s]
      case Err(_) => slots
    else slots
  }

  class SlotStore {
    var slots: map<int, Slot>

    constructor ()
      ensures slots == map[]
    {
      slots := map[];
    }

    /** getSlot: the stored slot of a station, if any. */
    function GetSlot(stationId: int): (r: Option<Slot>)
      reads this
      ensures r.Some? <==> stationId in slots
      ensures r.Some? ==> r.value == slots[stationId]
    {
      if stationId in slots then Some(slots[stationId]) else None
    }

    /** setSlot: afterwards getSlot(stationId) returns the slot; nothing else changes. */
    method SetSlot(stationId: int, slot: Slot)
      modifies this
      ensures slots == old(slots)[stationId := slot]
      ensures GetSlot(stationId) == Some(slot)
    {
      slots := slots[stationId := slot];
    }

    /** removeSlot: afterwards getSlot(stationId) is absent; nothing else changes. */
    method RemoveSlot(stationId: int)
      modifies this
      ensures slots == old(slots) - {stationId}
      ensures GetSlot(stationId).None?
    {
      slots := slots - {stationId};
    }

    /**
     * updateSlotWithLock with the lock treated as one atomic step: `locked` says
     * whether tryLock succeeded. The result is Ok(true) when the updater ran and
     * its slot was written back, Ok(false) when there was no slot to update.
     */
    method UpdateSlotWithLock(stationId: int, updater: Slot -> Result<Slot>, locked: bool) returns (r: Result<bool>)
      modifies this
      ensures slots == ApplyUpdate(old(slots), stationId, updater, locked)
      ensures !locked ==> r == Err(LockTimeout)
      ensures locked && stationId !in old(slots) ==> r == Ok(false)
      ensures locked && stationId in old(slots) ==>
        match updater(old(slots)[stationId])
        case Ok(_) => r == Ok(true)
        case Err(e) => r == Err(e)
    {
      if !locked {
        return Err(LockTimeout);
      }
      var slot := GetSlot(stationId);
      if slot.None? {
        return Ok(false);
      }
      match updater(slot.value)
      case Ok(s) =>
        SetSlot(stationId, s);
        r := Ok(true);
      case Err(e) =>
        r := Err(e);
    }
  }
}
