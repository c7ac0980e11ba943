/**
The uplink printer (Telemetry.cpp): one CSV line per status, a sequence counter
that advances with every line written.
*/
module Telemetry {
  import opened Words
  import opened Wrappers
  import opened Decimal
  import opened TelemetryModel
  import opened ReceiverContract

  /** Size of the line buffer of `sendStatus`. */
  const PAYLOAD_SIZE: nat := 192

  function Flag(b: bool): string {
    if b then "1" else "0"
  }

  /** The text of position k of the format string, the tag being position 0. */
  function StatusToken(k: nat, seqNo: uint32, d: TelemetryData): string
    requires k < TOKEN_COUNT
  {
    match k
    case 0 => "TEL"
    case 1 => Signed(LORA_PROTOCOL_VERSION)
    case 2 => Unsigned(seqNo)
    case 3 => Unsigned(d.motorRpm)
    case 4 => Signed(d.motorTorqueFeedback)
    case 5 => Unsigned(d.motorErrorFlags)
    case 6 => Flag(d.motorDataValid)
    case 7 => Flag(d.motorTimeoutActive)
    case 8 => Unsigned(d.bmsCellVoltageMaxDeciMv)
    case 9 => Unsigned(d.bmsCellVoltageMinDeciMv)
    case 10 => Signed(d.bmsTempHighestC)
    case 11 => Signed(d.bmsTempLowestC)
    case 12 => Unsigned(d.bmsSystemState)
    case 13 => Unsigned(d.bmsPackVoltageDeciV)
    case 14 => Signed(d.bmsCurrentCentiMa)
    case 15 => Unsigned(d.bmsSocHundredths)
    case 16 => Flag(d.bmsDataValid)
    case 17 => Unsigned(d.timestampMs)
    case _ => Unsigned(d.speedKmhX10)
  }

  function StatusTokens(seqNo: uint32, d: TelemetryData): (parts: seq<string>)
    ensures |parts| == TOKEN_COUNT
  {
    seq(TOKEN_COUNT, k requires 0 <= k < TOKEN_COUNT => StatusToken(k, seqNo, d))
  }

  function StatusLine(seqNo: uint32, d: TelemetryData): string {
    Join(StatusTokens(seqNo, d)) + "\r\n"
  }

  // ------------------------------------------------------------------
  // Meaning: what the receiver reads back
  // ------------------------------------------------------------------

  function BoolInt(b: bool): int {
    if b then 1 else 0
  }

  /** The value a status carries under each name of the receiver. */
  function FieldValue(x: Field, seqNo: uint32, d: TelemetryData): int {
    match x
    case Ver => LORA_PROTOCOL_VERSION
    case Seq => seqNo
    case Rpm => d.motorRpm
    case Torque => d.motorTorqueFeedback
    case MotorErr => d.motorErrorFlags
    case MotorValid => BoolInt(d.motorDataValid)
    case MotorTimeout => BoolInt(d.motorTimeoutActive)
    case CellVMax => d.bmsCellVoltageMaxDeciMv
    case CellVMin => d.bmsCellVoltageMinDeciMv
    case TempH => d.bmsTempHighestC
    case TempL => d.bmsTempLowestC
    case SysState => d.bmsSystemState
    case PackV => d.bmsPackVoltageDeciV
    case Current => d.bmsCurrentCentiMa
    case Soc => d.bmsSocHundredths
    case BmsValid => BoolInt(d.bmsDataValid)
    case TsMs => d.timestampMs
    case SpdX10 => d.speedKmhX10
  }

  function FrameOf(seqNo: uint32, d: TelemetryData): (f: Frame)
    ensures Complete(f)
  {
    map x: Field | true :: FieldValue(x, seqNo, d)
  }

  lemma TokenCarriesField(k: nat, seqNo: uint32, d: TelemetryData)
    requires k < FIELD_COUNT
    ensures StatusToken(k + 1, seqNo, d) == Signed(FieldValue(FieldAt(k), seqNo, d))
  {
    assert Unsigned(0) == "0" && Unsigned(1) == "1";
  }

  /** The firmware's printer and the receiver's reference printer write the same line. */
  lemma StatusLineIsBuiltLine(seqNo: uint32, d: TelemetryData)
    ensures StatusLine(seqNo, d) == BuildTelLine(FrameOf(seqNo, d))
  {
    var f, parts := FrameOf(seqNo, d), StatusTokens(seqNo, d);
    forall k | 0 <= k < TOKEN_COUNT ensures parts[k] == Tokens(f)[k] {
      if k > 0 {
        TokenCarriesField(k - 1, seqNo, d);
      }
    }
    assert parts == Tokens(f);
  }

  /** What a record must satisfy for the receiver's ranges to hold. */
  predicate UplinkSafe(d: TelemetryData) {
    && 1 <= d.bmsSystemState <= 4
    && d.bmsSocHundredths <= 10000
    && d.bmsCurrentCentiMa != INT32_MIN
    && d.speedKmhX10 <= TEL_SPD_X10_MAX
  }

  lemma SafeFieldInRange(x: Field, seqNo: uint32, d: TelemetryData)
    requires UplinkSafe(d)
    ensures FieldMin(x) <= FieldValue(x, seqNo, d) <= FieldMax(x)
  {
  }

  lemma SafeIffInRange(seqNo: uint32, d: TelemetryData)
    ensures InRange(FrameOf(seqNo, d)) <==> UplinkSafe(d)
  {
    var f := FrameOf(seqNo, d);
    if InRange(f) {
      assert f[SysState] == d.bmsSystemState && f[Soc] == d.bmsSocHundredths;
      assert f[Current] == d.bmsCurrentCentiMa && f[SpdX10] == d.speedKmhX10;
    }
    if UplinkSafe(d) {
      forall x: Field ensures FieldMin(x) <= f[x] <= FieldMax(x) {
        SafeFieldInRange(x, seqNo, d);
        assert f[x] == FieldValue(x, seqNo, d);
      }
    }
  }

  /** The verdict on any printed record, raw or sanitized. */
  lemma VerdictOnStatusLine(seqNo: uint32, d: TelemetryData)
    ensures ReceiverVerdict(StatusLine(seqNo, d)) ==
            if !UplinkSafe(d) then Failure(ParseFail)
            else if d.motorRpm > TEL_RPM_MAX then Failure(RangeFail)
            else Success(FrameOf(seqNo, d))
  {
    var f := FrameOf(seqNo, d);
    StatusLineIsBuiltLine(seqNo, d);
    SafeIffInRange(seqNo, d);
    VerdictOnBuiltLine(f);
    assert f[Ver] == VER && f[Rpm] == d.motorRpm;
  }

  /**
   Uplink round trip. With the speed clamp in force, a sanitized record is accepted exactly when
   its RPM passes the receiver's sanity limit, and then every field arrives as it was sent; the
   only other outcome is the RPM rejection.
  */
  lemma UplinkRoundTrip(seqNo: uint32, d: TelemetryData)
    requires d.speedKmhX10 <= TEL_SPD_X10_MAX
    ensures ReceiverVerdict(StatusLine(seqNo, SanitizeForUplink(d))) ==
            if d.motorRpm <= TEL_RPM_MAX then Success(FrameOf(seqNo, SanitizeForUplink(d)))
            else Failure(RangeFail)
  {
    VerdictOnStatusLine(seqNo, SanitizeForUplink(d));
  }

  /**
   What the receiver has after accepting a record's line, field by field: the record's values, with an
   unknown system state reported as FAULT (4), the state of charge cut at 100 % and the one current that
   the receiver cannot represent replaced by its neighbour.
  */
  ghost predicate Carries(f: Frame, seqNo: uint32, d: TelemetryData) {
    && Complete(f)
    && f[Ver] == 2 && f[Seq] == seqNo
    && f[Rpm] == d.motorRpm && f[Torque] == d.motorTorqueFeedback && f[MotorErr] == d.motorErrorFlags
    && f[MotorValid] == (if d.motorDataValid then 1 else 0)
    && f[MotorTimeout] == (if d.motorTimeoutActive then 1 else 0)
    && f[CellVMax] == d.bmsCellVoltageMaxDeciMv && f[CellVMin] == d.bmsCellVoltageMinDeciMv
    && f[TempH] == d.bmsTempHighestC && f[TempL] == d.bmsTempLowestC
    && f[SysState] == (if 1 <= d.bmsSystemState <= 4 then d.bmsSystemState else 4)
    && f[PackV] == d.bmsPackVoltageDeciV
    && f[Current] == (if d.bmsCurrentCentiMa < -2147483647 then -2147483647 else d.bmsCurrentCentiMa)
    && f[Soc] == (if d.bmsSocHundredths > 10000 then 10000 else d.bmsSocHundredths)
    && f[BmsValid] == (if d.bmsDataValid then 1 else 0)
    && f[TsMs] == d.timestampMs && f[SpdX10] == d.speedKmhX10
  }

  lemma FrameCarries(seqNo: uint32, d: TelemetryData)
    ensures Carries(FrameOf(seqNo, SanitizeForUplink(d)), seqNo, d)
  {
  }

  /** The line of any record with a clamped speed: accepted iff its RPM is sane, and then it carries the record. */
  lemma LineCarries(seqNo: uint32, d: TelemetryData)
    requires d.speedKmhX10 <= TEL_SPD_X10_MAX
    ensures var verdict := ReceiverVerdict(StatusLine(seqNo, SanitizeForUplink(d)));
            && (d.motorRpm <= 20000 ==> verdict.Success? && Carries(verdict.value, seqNo, d))
            && (d.motorRpm > 20000 ==> verdict == Failure(RangeFail))
  {
    hide StatusLine, ReceiverVerdict, SanitizeForUplink, FrameOf, Carries;
    UplinkRoundTrip(seqNo, d);
    FrameCarries(seqNo, d);
  }

  /** Sanitizing changes a record exactly when the receiver's ranges would reject it (speed clamped). */
  lemma SanitizeIsMinimal(d: TelemetryData)
    requires d.speedKmhX10 <= TEL_SPD_X10_MAX
    ensures UplinkSafe(SanitizeForUplink(d))
    ensures SanitizeForUplink(d) == d <==> UplinkSafe(d)
    ensures SanitizeForUplink(SanitizeForUplink(d)) == SanitizeForUplink(d)
  {
  }

  // ------------------------------------------------------------------
  // Length
  // ------------------------------------------------------------------

  function TotalLength(parts: seq<string>, n: nat): nat
    requires n <= |parts|
  {
    if n == 0 then 0 else TotalLength(parts, n - 1) + |parts[n - 1]|
  }

  lemma {:induction false} JoinLength(parts: seq<string>)
    requires parts != []
    ensures |Join(parts)| == TotalLength(parts, |parts|) + |parts| - 1
  {
    if |parts| == 1 {
      assert TotalLength(parts, 1) == TotalLength(parts, 0) + |parts[0]|;
    } else {
      JoinLength(parts[1..]);
      TotalLengthOfTail(parts, |parts| - 1);
    }
  }

  lemma {:induction false} TotalLengthOfTail(parts: seq<string>, n: nat)
    requires n < |parts|
    ensures TotalLength(parts, n + 1) == |parts[0]| + TotalLength(parts[1..], n)
  {
    if n > 0 {
      TotalLengthOfTail(parts, n - 1);
    }
  }

  /** Widest text of each position, for any record and for the records the CAN side publishes. */
  function Widest(k: nat, fromCan: bool): nat
    requires k < TOKEN_COUNT
  {
    match k
    case 0 => 3
    case 2 => 10
    case 3 => 5
    case 4 => if fromCan then 1 else 6
    case 5 => 3
    case 8 => if fromCan then 1 else 5
    case 9 => if fromCan then 1 else 5
    case 10 => 4
    case 11 => 4
    case 12 => if fromCan then 1 else 3
    case 13 => 5
    case 14 => if fromCan then 7 else 11
    case 15 => 5
    case 17 => 10
    case 18 => if fromCan then 4 else 5
    case _ => 1
  }

  function WidestTotal(n: nat, fromCan: bool): nat
    requires n <= TOKEN_COUNT
  {
    if n == 0 then 0 else WidestTotal(n - 1, fromCan) + Widest(n - 1, fromCan)
  }

  lemma WidestTotals()
    ensures WidestTotal(TOKEN_COUNT, false) == 88 && WidestTotal(TOKEN_COUNT, true) == 68
  {
    assert WidestTotal(3, false) == 14 && WidestTotal(3, true) == 14;
    assert WidestTotal(6, false) == 28 && WidestTotal(6, true) == 23;
    assert WidestTotal(9, false) == 35 && WidestTotal(9, true) == 26;
    assert WidestTotal(12, false) == 48 && WidestTotal(12, true) == 35;
    assert WidestTotal(15, false) == 67 && WidestTotal(15, true) == 48;
    assert WidestTotal(18, false) == 83 && WidestTotal(18, true) == 64;
  }

  lemma {:induction false} LengthWithin(seqNo: uint32, d: TelemetryData, fromCan: bool, n: nat)
    requires n <= TOKEN_COUNT
    requires forall k :: 0 <= k < n ==> |StatusToken(k, seqNo, d)| <= Widest(k, fromCan)
    ensures TotalLength(StatusTokens(seqNo, d), n) <= WidestTotal(n, fromCan)
  {
    if n > 0 {
      LengthWithin(seqNo, d, fromCan, n - 1);
      assert StatusTokens(seqNo, d)[n - 1] == StatusToken(n - 1, seqNo, d);
    }
  }

  lemma UnsignedTokens(k: nat, seqNo: uint32, d: TelemetryData)
    requires k in {2, 3, 5, 8, 9, 12, 13, 15, 17, 18}
    ensures |StatusToken(k, seqNo, d)| <= Widest(k, false)
  {
    UnsignedWidths(seqNo);
    UnsignedWidths(d.timestampMs);
    if k in {3, 5, 8, 9} {
      UnsignedWidths(d.motorRpm);
      UnsignedWidths(d.motorErrorFlags);
      UnsignedWidths(d.bmsCellVoltageMaxDeciMv);
      UnsignedWidths(d.bmsCellVoltageMinDeciMv);
    } else {
      UnsignedWidths(d.bmsSystemState);
      UnsignedWidths(d.bmsPackVoltageDeciV);
      UnsignedWidths(d.bmsSocHundredths);
      UnsignedWidths(d.speedKmhX10);
    }
  }

  lemma TokenWidth(k: nat, seqNo: uint32, d: TelemetryData)
    requires k < TOKEN_COUNT
    ensures |StatusToken(k, seqNo, d)| <= Widest(k, false)
  {
    if k in {2, 3, 5, 8, 9, 12, 13, 15, 17, 18} {
      UnsignedTokens(k, seqNo, d);
    } else {
      UnsignedWidths(LORA_PROTOCOL_VERSION);
      SignedWidths(d.motorTorqueFeedback);
      SignedWidths(d.bmsTempHighestC);
      SignedWidths(d.bmsTempLowestC);
      SignedWidths(d.bmsCurrentCentiMa);
    }
  }

  /** Any record prints to at most 108 bytes, so the line buffer is never cut short. */
  lemma StatusLineFits(seqNo: uint32, d: TelemetryData)
    ensures 0 < |StatusLine(seqNo, d)| <= 108
  {
    forall k | 0 <= k < TOKEN_COUNT ensures |StatusToken(k, seqNo, d)| <= Widest(k, false) {
      TokenWidth(k, seqNo, d);
    }
    JoinLength(StatusTokens(seqNo, d));
    LengthWithin(seqNo, d, false, TOKEN_COUNT);
    WidestTotals();
  }

  /** What the CAN side can publish: torque and cell voltages are never written, the current is a scaled int16. */
  predicate FromCan(d: TelemetryData) {
    && d.motorTorqueFeedback == 0
    && d.bmsCellVoltageMaxDeciMv == 0
    && d.bmsCellVoltageMinDeciMv == 0
    && d.bmsSystemState == 0
    && -327680 <= d.bmsCurrentCentiMa <= 327670
    && d.speedKmhX10 <= TEL_SPD_X10_MAX
  }

  lemma CanTokenWidth(k: nat, seqNo: uint32, d: TelemetryData)
    requires k < TOKEN_COUNT && FromCan(d)
    ensures |StatusToken(k, seqNo, SanitizeForUplink(d))| <= Widest(k, true)
  {
    var e := SanitizeForUplink(d);
    TokenWidth(k, seqNo, e);
    UnsignedWidths(0);
    UnsignedWidths(e.bmsSystemState);
    SignedWidths(e.bmsCurrentCentiMa);
    UnsignedWidths(e.speedKmhX10);
  }

  /** What the vehicle really sends is at most 88 bytes a line. */
  lemma CanStatusLineFits(seqNo: uint32, d: TelemetryData)
    requires FromCan(d)
    ensures |StatusLine(seqNo, SanitizeForUplink(d))| <= 88
  {
    var e := SanitizeForUplink(d);
    forall k | 0 <= k < TOKEN_COUNT ensures |StatusToken(k, seqNo, e)| <= Widest(k, true) {
      CanTokenWidth(k, seqNo, d);
    }
    JoinLength(StatusTokens(seqNo, e));
    LengthWithin(seqNo, e, true, TOKEN_COUNT);
    WidestTotals();
  }

  // ------------------------------------------------------------------
  // The object
  // ------------------------------------------------------------------

  /**
   `snprintf`: writes at most |buf| - 1 characters and a terminator, returns the full length.
  */
  method Format(buf: array<char>, text: string) returns (length: nat)
    requires buf.Length > 0
    modifies buf
    ensures length == |text|
    ensures |text| < buf.Length ==> buf[..|text|] == text && buf[|text|] == '\0'
    ensures |text| >= buf.Length ==> buf[..buf.Length - 1] == text[..buf.Length - 1] && buf[buf.Length - 1] == '\0'
  {
    var n := if |text| < buf.Length then |text| else buf.Length - 1;
    for i := 0 to n
      invariant buf[..i] == text[..i]
    {
      buf[i] := text[i];
    }
    buf[n] := '\0';
    length := |text|;
  }

  class TelemetrySender {
    var isInitialized: bool
    var sequenceCounter: uint32

    constructor ()
      ensures !isInitialized && sequenceCounter == 0
    {
      isInitialized, sequenceCounter := false, 0;
    }

    method Begin() returns (ok: bool)
      modifies this
      ensures ok && isInitialized && sequenceCounter == 0
    {
      isInitialized := true;
      sequenceCounter := 0;
      ok := true;
    }

    /**
     `sendStatus`. `uartResult` is what the UART driver returns; `tx` is what it was handed.
     The whole line always reaches the driver: the truncation in the source is dead code.
    */
    method SendStatus(d: TelemetryData, uartResult: int) returns (tx: Option<string>)
      modifies this`sequenceCounter
      ensures tx == if isInitialized then Some(StatusLine(old(sequenceCounter), d)) else None
      ensures sequenceCounter ==
              if isInitialized && uartResult >= 0 then Wrap32(old(sequenceCounter) + 1)
              else old(sequenceCounter)
    {
      if !isInitialized {
        return None;
      }
      var payload := new char[PAYLOAD_SIZE];
      var payloadLength := Format(payload, StatusLine(sequenceCounter, d));
      StatusLineFits(sequenceCounter, d);
      if payloadLength <= 0 {
        return None;
      }
      var txLength := if payloadLength < PAYLOAD_SIZE then payloadLength else PAYLOAD_SIZE - 1;
      tx := Some(payload[..txLength]);
      if uartResult < 0 {
        return;
      }
      sequenceCounter := Wrap32(sequenceCounter + 1);
    }
  }
}
