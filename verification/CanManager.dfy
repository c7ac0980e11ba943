/**
CAN reception (CanParse.cpp, CanManager.cpp): frame parsing, the telemetry
snapshot, freshness flags on a 32-bit tick counter, and fault edges.
*/
module CanManager {
  import opened Words
  import opened Wrappers
  import opened TelemetryModel
  import opened VcuLogic

  const CAN_ID_MOTOR_STATUS: uint32 := 0x200
  const CAN_ID_LB_BMS_E000: uint32 := 0xE000
  const CAN_ID_LB_BMS_E001: uint32 := 0xE001
  const CAN_MOTOR_STATUS_TIMEOUT_MS: uint32 := 500
  const CAN_BMS_STATUS_TIMEOUT_MS: uint32 := 500
  const RX_BATCH: nat := 5
  const UNDERVOLTAGE_FLAG: uint8 := 0x01
  const OVERVOLTAGE_FLAG: uint8 := 0x02

  type Payload = d: seq<uint8> | |d| == 8 witness [0, 0, 0, 0, 0, 0, 0, 0]

  datatype CanFrame = CanFrame(extended: bool, id: uint32, dlc: uint8, data: Payload)

  // ------------------------------------------------------------------
  // Parsing
  // ------------------------------------------------------------------

  datatype MotorStatus = MotorStatus(rpm: uint16, torqueFeedback: int16, errorFlags: uint8, isValid: bool)

  function ParseMotorStatus(f: CanFrame): Option<MotorStatus> {
    if f.dlc < 4 then None
    else Some(MotorStatus(BigEndian16(f.data[0], f.data[1]),
                          AsInt16(BigEndian16(f.data[2], f.data[3])),
                          if f.dlc >= 5 then f.data[4] else 0,
                          true))
  }

  datatype PackStatus = PackStatus(currentCentiMa: int32, voltageDeciV: uint16, socHundredths: uint16)

  function ParseLbBmsE000(f: CanFrame): Option<PackStatus> {
    if f.dlc < 8 then None
    else Some(PackStatus(AsInt16(BigEndian16(f.data[0], f.data[1])) * 10,
                         BigEndian16(f.data[2], f.data[3]),
                         BigEndian16(f.data[4], f.data[5])))
  }

  function ParseLbBmsE001(f: CanFrame): Option<(int8, int8)> {
    if f.dlc < 8 then None
    else
      var t1, t2 := AsInt8(f.data[6]), AsInt8(f.data[7]);
      Some((if t1 >= t2 then t1 else t2, if t1 <= t2 then t1 else t2))
  }

  datatype PackVoltageFault = NoVoltageFault | Undervoltage | Overvoltage

  function CheckPackVoltageFault(deciV: uint16, criticalMin: uint16, criticalMax: uint16): PackVoltageFault {
    if deciV <= criticalMin then Undervoltage
    else if deciV >= criticalMax then Overvoltage
    else NoVoltageFault
  }

  /** Both `isMotorStatusTimedOut` and `isBmsStatusTimedOut`. */
  predicate IsTimedOut(hasSeen: bool, lastValid: bool, now: uint32, lastTick: uint32, timeoutTicks: uint32) {
    if !hasSeen || !lastValid then false else Sub32(now, lastTick) >= timeoutTicks
  }

  // ------------------------------------------------------------------
  // State
  // ------------------------------------------------------------------

  datatype Can = Can(
    motor: MotorStatus,
    telemetry: TelemetryData,
    lastMotorTick: uint32,
    hasSeenMotor: bool,
    lastE000Tick: uint32,
    hasSeenE000: bool,
    e000Valid: bool,
    packFaultFlags: uint8)

  const INITIAL: Can := Can(MotorStatus(0, 0, 0, false), ZERO_TELEMETRY, 0, false, 0, false, false, 0)

  function PackFlags(deciV: uint16): uint8 {
    match CheckPackVoltageFault(deciV, BMS_CRITICAL_MIN_PACK_VOLTAGE_DECI_V, BMS_CRITICAL_MAX_PACK_VOLTAGE_DECI_V)
    case NoVoltageFault => 0
    case Undervoltage => UNDERVOLTAGE_FLAG
    case Overvoltage => OVERVOLTAGE_FLAG
  }

  /** A fault event is raised exactly on a change to a new nonzero flag value. */
  predicate NotifiesFault(previous: uint8, current: uint8) {
    current != 0 && current != previous
  }

  function HandleMotorStatus(c: Can, f: CanFrame, now: uint32): (Can, bool) {
    match ParseMotorStatus(f)
    case None => (c, false)
    case Some(m) =>
      (c.(motor := m, lastMotorTick := now, hasSeenMotor := true,
          telemetry := c.telemetry.(motorRpm := m.rpm, motorErrorFlags := m.errorFlags,
                                    motorDataValid := m.isValid, motorTimeoutActive := false)),
       NotifiesFault(c.motor.errorFlags, m.errorFlags))
  }

  function HandleLbBmsE000(c: Can, f: CanFrame, now: uint32): (Can, bool) {
    match ParseLbBmsE000(f)
    case None => (c, false)
    case Some(p) =>
      var flags := PackFlags(p.voltageDeciV);
      (c.(lastE000Tick := now, hasSeenE000 := true, e000Valid := true, packFaultFlags := flags,
          telemetry := c.telemetry.(bmsPackVoltageDeciV := p.voltageDeciV, bmsCurrentCentiMa := p.currentCentiMa,
                                    bmsSocHundredths := p.socHundredths, bmsDataValid := true,
                                    bmsTimeoutActive := false)),
       NotifiesFault(c.packFaultFlags, flags))
  }

  function HandleLbBmsE001(c: Can, f: CanFrame): Can {
    match ParseLbBmsE001(f)
    case None => c
    case Some(t) => c.(telemetry := c.telemetry.(bmsTempHighestC := t.0, bmsTempLowestC := t.1))
  }

  /** Dispatch of one received frame: the new state, and whether a fault event is raised. */
  function Receive(c: Can, f: CanFrame, now: uint32): (Can, bool) {
    if f.extended then
      if f.id == CAN_ID_LB_BMS_E000 then HandleLbBmsE000(c, f, now)
      else if f.id == CAN_ID_LB_BMS_E001 then (HandleLbBmsE001(c, f), false)
      else (c, false)
    else if f.id == CAN_ID_MOTOR_STATUS then HandleMotorStatus(c, f, now)
    else (c, false)
  }

  function UpdateMotorValidity(c: Can, now: uint32): Can {
    if IsTimedOut(c.hasSeenMotor, c.motor.isValid, now, c.lastMotorTick, MsToTicks(CAN_MOTOR_STATUS_TIMEOUT_MS)) then
      c.(motor := c.motor.(isValid := false),
         telemetry := c.telemetry.(motorDataValid := false, motorTimeoutActive := true))
    else c
  }

  function UpdateBmsValidity(c: Can, now: uint32): Can {
    var valid := c.e000Valid &&
                 !IsTimedOut(c.hasSeenE000, c.e000Valid, now, c.lastE000Tick, MsToTicks(CAN_BMS_STATUS_TIMEOUT_MS));
    if valid then c
    else c.(e000Valid := false,
            telemetry := c.telemetry.(bmsDataValid := false,
                                      bmsTimeoutActive := c.telemetry.bmsTimeoutActive || c.hasSeenE000))
  }

  /** The snapshot the CAN task publishes: speed and timestamp are stamped on a copy. */
  function Publish(c: Can, speedKmhX10: uint16, timestampMs: uint32): TelemetryData {
    c.telemetry.(speedKmhX10 := speedKmhX10, timestampMs := timestampMs)
  }

  /** The frames of one batch, each with the tick count read when it is handled; and the events raised. */
  function ReceiveAll(c: Can, frames: seq<(CanFrame, uint32)>): (Can, nat)
    decreases |frames|
  {
    if frames == [] then (c, 0)
    else
      var first := Receive(c, frames[0].0, frames[0].1);
      var rest := ReceiveAll(first.0, frames[1..]);
      (rest.0, (if first.1 then 1 else 0) + rest.1)
  }

  /** `processRxMessages`: at most five waiting frames, then the freshness checks. */
  function ProcessRx(c: Can, waiting: seq<(CanFrame, uint32)>, motorNow: uint32, bmsNow: uint32): (Can, nat) {
    var batch := if |waiting| <= RX_BATCH then waiting else waiting[..RX_BATCH];
    var received := ReceiveAll(c, batch);
    (UpdateBmsValidity(UpdateMotorValidity(received.0, motorNow), bmsNow), received.1)
  }

  // ------------------------------------------------------------------
  // The object
  // ------------------------------------------------------------------

  class Manager {
    var motorStatus: MotorStatus
    var telemetryData: TelemetryData
    var lastMotorStatusTick: uint32
    var hasSeenMotorStatus: bool
    var lastBmsE000Tick: uint32
    var hasSeenBmsE000: bool
    var bmsE000Valid: bool
    var bmsPackFaultFlags: uint8

    ghost function Value(): Can
      reads this
    {
      Can(motorStatus, telemetryData, lastMotorStatusTick, hasSeenMotorStatus,
          lastBmsE000Tick, hasSeenBmsE000, bmsE000Valid, bmsPackFaultFlags)
    }

    constructor ()
      ensures Value() == INITIAL
    {
      motorStatus, telemetryData := MotorStatus(0, 0, 0, false), ZERO_TELEMETRY;
      lastMotorStatusTick, hasSeenMotorStatus := 0, false;
      lastBmsE000Tick, hasSeenBmsE000, bmsE000Valid, bmsPackFaultFlags := 0, false, false, 0;
    }

    method OnMotorStatus(f: CanFrame, now: uint32) returns (fault: bool)
      modifies this
      ensures (Value(), fault) == HandleMotorStatus(old(Value()), f, now)
    {
      var parsed := ParseMotorStatus(f);
      if parsed.None? {
        return false;
      }
      var previous := motorStatus.errorFlags;
      motorStatus := parsed.value;
      lastMotorStatusTick := now;
      hasSeenMotorStatus := true;
      telemetryData := telemetryData.(motorRpm := motorStatus.rpm);
      telemetryData := telemetryData.(motorErrorFlags := motorStatus.errorFlags);
      telemetryData := telemetryData.(motorDataValid := motorStatus.isValid);
      telemetryData := telemetryData.(motorTimeoutActive := false);
      return NotifiesFault(previous, motorStatus.errorFlags);
    }

    method OnLbBmsE000(f: CanFrame, now: uint32) returns (fault: bool)
      modifies this
      ensures (Value(), fault) == HandleLbBmsE000(old(Value()), f, now)
    {
      var parsed := ParseLbBmsE000(f);
      if parsed.None? {
        return false;
      }
      var newFlags := PackFlags(parsed.value.voltageDeciV);
      telemetryData := telemetryData.(bmsPackVoltageDeciV := parsed.value.voltageDeciV);
      telemetryData := telemetryData.(bmsCurrentCentiMa := parsed.value.currentCentiMa);
      telemetryData := telemetryData.(bmsSocHundredths := parsed.value.socHundredths);
      lastBmsE000Tick := now;
      hasSeenBmsE000 := true;
      bmsE000Valid := true;
      telemetryData := telemetryData.(bmsDataValid := bmsE000Valid);
      telemetryData := telemetryData.(bmsTimeoutActive := false);
      var previous := bmsPackFaultFlags;
      bmsPackFaultFlags := newFlags;
      return NotifiesFault(previous, newFlags);
    }

    method OnLbBmsE001(f: CanFrame)
      modifies this
      ensures Value() == HandleLbBmsE001(old(Value()), f)
    {
      var parsed := ParseLbBmsE001(f);
      if parsed.None? {
        return;
      }
      telemetryData := telemetryData.(bmsTempHighestC := parsed.value.0, bmsTempLowestC := parsed.value.1);
    }

    method OnFrame(f: CanFrame, now: uint32) returns (fault: bool)
      modifies this
      ensures (Value(), fault) == Receive(old(Value()), f, now)
    {
      fault := false;
      if f.extended {
        if f.id == CAN_ID_LB_BMS_E000 {
          fault := OnLbBmsE000(f, now);
        } else if f.id == CAN_ID_LB_BMS_E001 {
          OnLbBmsE001(f);
        }
      } else if f.id == CAN_ID_MOTOR_STATUS {
        fault := OnMotorStatus(f, now);
      }
    }

    method CheckMotor(now: uint32)
      modifies this
      ensures Value() == UpdateMotorValidity(old(Value()), now)
    {
      if IsTimedOut(hasSeenMotorStatus, motorStatus.isValid, now, lastMotorStatusTick,
                    MsToTicks(CAN_MOTOR_STATUS_TIMEOUT_MS)) {
        motorStatus := motorStatus.(isValid := false);
        telemetryData := telemetryData.(motorDataValid := false, motorTimeoutActive := true);
      }
    }

    method CheckBms(now: uint32)
      modifies this
      ensures Value() == UpdateBmsValidity(old(Value()), now)
    {
      if IsTimedOut(hasSeenBmsE000, bmsE000Valid, now, lastBmsE000Tick, MsToTicks(CAN_BMS_STATUS_TIMEOUT_MS)) {
        bmsE000Valid := false;
      }
      if !bmsE000Valid {
        telemetryData := telemetryData.(bmsDataValid := false);
        if hasSeenBmsE000 {
          telemetryData := telemetryData.(bmsTimeoutActive := true);
        }
      }
    }

    /** `processRxMessages`: consumes up to five waiting frames; `events` counts the fault callbacks. */
    method Process(waiting: seq<(CanFrame, uint32)>, motorNow: uint32, bmsNow: uint32) returns (events: nat)
      modifies this
      ensures (Value(), events) == ProcessRx(old(Value()), waiting, motorNow, bmsNow)
    {
      hide Receive;
      events := 0;
      ghost var batch := if |waiting| <= RX_BATCH then waiting else waiting[..RX_BATCH];
      ghost var whole := ReceiveAll(Value(), batch);
      for i := 0 to RX_BATCH
        invariant i <= |batch|
        invariant whole.0 == ReceiveAll(Value(), batch[i..]).0
        invariant whole.1 == events + ReceiveAll(Value(), batch[i..]).1
      {
        if i == |waiting| {
          break;
        }
        assert batch[i] == waiting[i] && batch[i..][1..] == batch[i + 1..];
        var fault := OnFrame(waiting[i].0, waiting[i].1);
        if fault {
          events := events + 1;
        }
      }
      CheckMotor(motorNow);
      CheckBms(bmsNow);
    }
  }
}
