/** The records the services read and write, with the fields the services use. */
module Entities {
  import opened Common

  /** A wall-clock time of day, in whole seconds since midnight. */
  type TimeOfDay = t: int | 0 <= t < 86400

  /** A station's charging power; the model only admits positive power. */
  type Power = p: real | p > 0.0 witness 1.0

  // Order status codes, as the services write them.
  const FINISHED := 0
  const CHARGING := 1
  const QUEUED := 2
  const WAITING := 3
  const CANCELLED := 4

  // Station (slot) status codes, as the services write them.
  const IDLE := 0
  const IN_USE := 1
  const CLOSED := 2
  const FAULTED := 3

  /** Mode 1 is fast charging; every other mode is slow charging. */
  const FAST := 1
  const SLOW := 0

  /**
   * The accrued progress of an order. Java keeps the five values in separate
   * nullable fields, but the only writer (the tick's head initialisation) sets
   * all of them together, so they are either all present or all absent.
   */
  datatype Accrual = Accrual(
    actualCharge: real,
    chargeDuration: int,
    chargeFee: real,
    serviceFee: real,
    totalFee: real)

  /** A charging request; timestamps are abstract instants supplied by the caller. */
  datatype Order = Order(
    id: string,
    userId: int,
    stationId: Option<int>,
    mode: int,
    status: int,
    chargeAmount: real,
    queueNo: Option<string>,
    accrual: Option<Accrual>,
    recordTime: Option<int>,
    startTime: Option<int>,
    stopTime: Option<int>)

  /** The runtime status object of a slot; `code` is the Java field `status`. */
  datatype StationStatus = StationStatus(
    code: int,
    currentChargeCount: Option<int>,
    currentChargeTime: Option<int>,
    currentChargeAmount: Option<real>)

  /** The per-station runtime record; every part may be missing, as in the cache. */
  datatype Slot = Slot(
    status: Option<StationStatus>,
    queue: Option<seq<string>>,
    waitingTime: Option<int>)

  datatype UnitPricePeriod = UnitPricePeriod(price: real, startTime: TimeOfDay, endTime: TimeOfDay)

  /** Cumulative per-station accounting. */
  datatype ReportInfo = ReportInfo(
    updatedAt: Option<int>,
    totalChargeCount: int,
    totalChargeTime: int,
    totalChargeAmount: real,
    totalChargeFee: real,
    totalServiceFee: real,
    totalFee: real)

  /** A station's configuration, as the services read it. */
  datatype ChargingStation = ChargingStation(
    id: int,
    name: string,
    description: Option<string>,
    mode: int,
    power: Power,
    serviceFee: real,
    peakPrice: real,
    normalPrice: real,
    valleyPrice: real,
    maxQueueLength: Option<int>,
    unitPrices: seq<UnitPricePeriod>,
    report: ReportInfo)

  /** The running totals kept on a user account. */
  datatype User = User(
    userId: int,
    totalChargeCount: int,
    totalChargeAmount: real,
    totalChargeDuration: int,
    totalChargeFee: real,
    totalServiceFee: real,
    totalFee: real)
}
