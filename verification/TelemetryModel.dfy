/**
The telemetry record every task shares (Telemetry.h) and the uplink sanitizer
(TelemetrySanitize.h).
*/
module TelemetryModel {
  import opened Words

  const LORA_PROTOCOL_VERSION: uint8 := 2
  const TEL_SPD_X10_MAX: uint16 := 3000

  datatype TelemetryData = TelemetryData(
    motorRpm: uint16,
    motorTorqueFeedback: int16,
    motorErrorFlags: uint8,
    motorDataValid: bool,
    motorTimeoutActive: bool,
    bmsCellVoltageMaxDeciMv: uint16,
    bmsCellVoltageMinDeciMv: uint16,
    bmsTempHighestC: int8,
    bmsTempLowestC: int8,
    bmsSystemState: uint8,
    bmsPackVoltageDeciV: uint16,
    bmsCurrentCentiMa: int32,
    bmsSocHundredths: uint16,
    bmsDataValid: bool,
    bmsTimeoutActive: bool,
    timestampMs: uint32,
    speedKmhX10: uint16)

  /** The value-initialised record. */
  const ZERO_TELEMETRY: TelemetryData :=
    TelemetryData(0, 0, 0, false, false, 0, 0, 0, 0, 0, 0, 0, 0, false, false, 0, 0)

  function SanitizeSystemState(raw: uint8): uint8 {
    if 1 <= raw <= 4 then raw else 4
  }

  function SanitizeSoc(raw: uint16): uint16 {
    if raw > 10000 then 10000 else raw
  }

  function SanitizeCurrent(raw: int32): int32 {
    if raw == INT32_MIN then INT32_MIN + 1 else raw
  }

  function SanitizeForUplink(raw: TelemetryData): TelemetryData {
    raw.(bmsSystemState := SanitizeSystemState(raw.bmsSystemState),
         bmsSocHundredths := SanitizeSoc(raw.bmsSocHundredths),
         bmsCurrentCentiMa := SanitizeCurrent(raw.bmsCurrentCentiMa))
  }
}
