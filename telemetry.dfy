/**
 * The telemetry vocabulary: module and satellite states, the two wire-string
 * lookup tables, and the records handed to the database gateway.
 */
module Telemetry {
  import opened Wrappers
  import Rtems

  /** `data.Status`. */
  datatype Status = On | Malfunction | Standby | NonOperational | Unknown

  /** `data.Satellite.SatelliteState`. */
  datatype SatelliteState = Operational | SafeMode | Unknown

  /** The enum constant's name, as `Status.toString()` gives it. */
  function StatusName(st: Status): string
  {
    match st
    case On => "ON"
    case Malfunction => "MALFUNCTION"
    case Standby => "STANDBY"
    case NonOperational => "NON_OPERATIONAL"
    case Unknown => "UNKNOWN"
  }

  /** The timestamp attribute every `Module` and sample element carries. */
  const TagTime := "time"

  const StatusOn := "ON"
  const StatusMalfunction := "MALFUNCTION"
  const StatusStandby := "STANDBY"
  const StatusNonOperational := "NON_OPERATIONAL"

  const StateOperational := "OPERATIONAL_STATE"
  const StateSafe := "SAFE_STATE"
  const StateInit := "INIT_STATE"

  /**
   * `stringToStatus`: the four reported statuses map to the constant of the
   * same name; anything else (including "UNKNOWN") gives null.
   */
  function StringToStatus(s: string): (r: Option<Status>)
    ensures r.Some? ==> r.value != Status.Unknown && StatusName(r.value) == s
    ensures forall st :: st != Status.Unknown && StatusName(st) == s ==> r == Some(st)
  {
    if s == StatusOn then Some(On)
    else if s == StatusMalfunction then Some(Malfunction)
    else if s == StatusStandby then Some(Standby)
    else if s == StatusNonOperational then Some(NonOperational)
    else None
  }

  /** `stringToSatState`: `INIT_STATE` is reported as operational; unrecognised text is unknown. */
  function StringToSatState(s: string): (r: SatelliteState)
    ensures r == Operational <==> s == StateOperational || s == StateInit
    ensures r == SafeMode <==> s == StateSafe
    ensures r == SatelliteState.Unknown <==> s !in {StateOperational, StateSafe, StateInit}
  {
    if s == StateOperational then Operational
    else if s == StateSafe then SafeMode
    else if s == StateInit then Operational
    else SatelliteState.Unknown
  }

  /** A 32-bit float reading, kept as its IEEE 754 bit pattern; the model never computes with it. */
  type Float = bv32

  /** The float literal 0 (positive zero) the decoders start every reading from. */
  const FloatZero: Float := 0

  /** A module's status and the time of the `Module` element that reported it (null when never reported). */
  datatype ModuleReport = ModuleReport(status: Status, time: Option<Rtems.Instant>)

  /** One call into the database gateway, with the arguments of that call. */
  datatype Record =
    | SatelliteRecord(state: SatelliteState, temperature: ModuleReport, energy: ModuleReport,
                      sband: ModuleReport, payload: ModuleReport, solarPanels: ModuleReport,
                      thermalControl: ModuleReport)
    | TemperatureRecord(sensor1: Float, sensor2: Float, sensor3: Float, time: Rtems.Instant)
    | EnergyRecord(battery1Voltage: Float, battery2Voltage: Float, battery3Voltage: Float,
                   battery1Current: Float, battery2Current: Float, battery3Current: Float,
                   time: Rtems.Instant)

  /** What a packet decoder handed to the gateway, and whether it then threw. */
  datatype Decoded = Decoded(inserts: seq<Record>, failed: bool)
}
