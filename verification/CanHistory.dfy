/**
CAN reception against the bytes on the bus: the telemetry is what the last
well-formed frame of each kind says, byte by byte, and the cycles of the CAN task
are the receptions and polls of the freshness theorems.
*/
module CanHistory {
  import opened Words
  import opened Wrappers
  import opened TelemetryModel
  import opened CanManager
  import opened CanFreshness

  // ------------------------------------------------------------------
  // What the bytes mean
  // ------------------------------------------------------------------

  datatype Kind = MotorFrame | PackFrame | TemperatureFrame

  predicate IsFrame(f: CanFrame, kind: Kind) {
    match kind
    case MotorFrame => Refreshes(f, Motor)
    case PackFrame => Refreshes(f, Bms)
    case TemperatureFrame => f.extended && f.id == 0xE001 && f.dlc >= 8
  }

  /** The last well-formed frame of a kind. */
  function LastFrame(before: Option<CanFrame>, steps: seq<CanStep>, kind: Kind): Option<CanFrame>
    decreases |steps|
  {
    if steps == [] then before
    else
      var now := if steps[0].Rx? && IsFrame(steps[0].frame, kind) then Some(steps[0].frame) else before;
      LastFrame(now, steps[1..], kind)
  }

  /** A byte pair, high byte first. */
  function Pair(f: CanFrame, k: nat): nat
    requires k + 1 < 8
  {
    f.data[k] as int * 256 + f.data[k + 1] as int
  }

  /** A byte pair in two's complement. */
  function SignedPair(f: CanFrame, k: nat): int
    requires k + 1 < 8
  {
    if f.data[k] >= 128 then Pair(f, k) - 65536 else Pair(f, k)
  }

  function SignedByte(f: CanFrame, k: nat): int
    requires k < 8
  {
    if f.data[k] >= 128 then f.data[k] as int - 256 else f.data[k]
  }

  predicate SaysMotor(d: TelemetryData, f: Option<CanFrame>) {
    match f
    case None => d.motorRpm == 0 && d.motorErrorFlags == 0
    case Some(m) => d.motorRpm == Pair(m, 0) && d.motorErrorFlags == if m.dlc >= 5 then m.data[4] else 0
  }

  predicate SaysPack(d: TelemetryData, f: Option<CanFrame>) {
    match f
    case None => d.bmsCurrentCentiMa == 0 && d.bmsPackVoltageDeciV == 0 && d.bmsSocHundredths == 0
    case Some(p) =>
      && d.bmsCurrentCentiMa == SignedPair(p, 0) * 10
      && d.bmsPackVoltageDeciV == Pair(p, 2)
      && d.bmsSocHundredths == Pair(p, 4)
  }

  predicate SaysTemperatures(d: TelemetryData, f: Option<CanFrame>) {
    match f
    case None => d.bmsTempHighestC == 0 && d.bmsTempLowestC == 0
    case Some(t) =>
      && d.bmsTempLowestC <= d.bmsTempHighestC
      && ((d.bmsTempHighestC == SignedByte(t, 6) && d.bmsTempLowestC == SignedByte(t, 7)) ||
          (d.bmsTempHighestC == SignedByte(t, 7) && d.bmsTempLowestC == SignedByte(t, 6)))
  }

  /** The values of a record are those of these frames; what no frame carries is zero. */
  predicate Says(d: TelemetryData, motor: Option<CanFrame>, pack: Option<CanFrame>, temps: Option<CanFrame>) {
    && SaysMotor(d, motor) && SaysPack(d, pack) && SaysTemperatures(d, temps)
    && d.motorTorqueFeedback == 0 && d.bmsCellVoltageMaxDeciMv == 0 && d.bmsCellVoltageMinDeciMv == 0
    && d.bmsSystemState == 0
  }

  lemma MotorSays(c: Can, f: CanFrame, now: uint32, motor: Option<CanFrame>, pack: Option<CanFrame>,
                  temps: Option<CanFrame>)
    requires Says(c.telemetry, motor, pack, temps)
    ensures Says(HandleMotorStatus(c, f, now).0.telemetry, if f.dlc >= 4 then Some(f) else motor, pack, temps)
  {
    hide SaysPack, SaysTemperatures;
    KeepsPack(c.telemetry, HandleMotorStatus(c, f, now).0.telemetry, pack);
    KeepsTemperatures(c.telemetry, HandleMotorStatus(c, f, now).0.telemetry, temps);
  }

  /** The controller's own copy of a motor frame, torque feedback included. */
  lemma MotorStatusSays(c: Can, f: CanFrame, now: uint32)
    requires IsFrame(f, MotorFrame)
    ensures var m := Receive(c, f, now).0.motor;
            && m.rpm == Pair(f, 0) && m.torqueFeedback == SignedPair(f, 2) && m.isValid
            && m.errorFlags == if f.dlc >= 5 then f.data[4] else 0
  {
  }

  lemma KeepsMotor(d: TelemetryData, e: TelemetryData, f: Option<CanFrame>)
    requires SaysMotor(d, f) && e.motorRpm == d.motorRpm && e.motorErrorFlags == d.motorErrorFlags
    ensures SaysMotor(e, f)
  {
  }

  lemma KeepsPack(d: TelemetryData, e: TelemetryData, f: Option<CanFrame>)
    requires SaysPack(d, f) && e.bmsCurrentCentiMa == d.bmsCurrentCentiMa
    requires e.bmsPackVoltageDeciV == d.bmsPackVoltageDeciV && e.bmsSocHundredths == d.bmsSocHundredths
    ensures SaysPack(e, f)
  {
  }

  lemma KeepsTemperatures(d: TelemetryData, e: TelemetryData, f: Option<CanFrame>)
    requires SaysTemperatures(d, f) && e.bmsTempHighestC == d.bmsTempHighestC && e.bmsTempLowestC == d.bmsTempLowestC
    ensures SaysTemperatures(e, f)
  {
  }

  lemma PackSays(c: Can, f: CanFrame, now: uint32, motor: Option<CanFrame>, pack: Option<CanFrame>,
                 temps: Option<CanFrame>)
    requires Says(c.telemetry, motor, pack, temps)
    ensures Says(HandleLbBmsE000(c, f, now).0.telemetry, motor, if f.dlc >= 8 then Some(f) else pack, temps)
  {
    hide SaysMotor, SaysTemperatures, PackFlags, NotifiesFault;
    KeepsMotor(c.telemetry, HandleLbBmsE000(c, f, now).0.telemetry, motor);
    KeepsTemperatures(c.telemetry, HandleLbBmsE000(c, f, now).0.telemetry, temps);
  }

  lemma TemperaturesSay(c: Can, f: CanFrame, motor: Option<CanFrame>, pack: Option<CanFrame>, temps: Option<CanFrame>)
    requires Says(c.telemetry, motor, pack, temps)
    ensures Says(HandleLbBmsE001(c, f).telemetry, motor, pack, if f.dlc >= 8 then Some(f) else temps)
  {
    hide SaysMotor, SaysPack;
    KeepsMotor(c.telemetry, HandleLbBmsE001(c, f).telemetry, motor);
    KeepsPack(c.telemetry, HandleLbBmsE001(c, f).telemetry, pack);
  }

  lemma PollsSay(c: Can, now: uint32, motor: Option<CanFrame>, pack: Option<CanFrame>, temps: Option<CanFrame>)
    requires Says(c.telemetry, motor, pack, temps)
    ensures Says(UpdateMotorValidity(c, now).telemetry, motor, pack, temps)
    ensures Says(UpdateBmsValidity(c, now).telemetry, motor, pack, temps)
  {
    hide SaysMotor, SaysPack, SaysTemperatures, MsToTicks, Sub32;
    KeepsMotor(c.telemetry, UpdateMotorValidity(c, now).telemetry, motor);
    KeepsPack(c.telemetry, UpdateMotorValidity(c, now).telemetry, pack);
    KeepsTemperatures(c.telemetry, UpdateMotorValidity(c, now).telemetry, temps);
    KeepsMotor(c.telemetry, UpdateBmsValidity(c, now).telemetry, motor);
    KeepsPack(c.telemetry, UpdateBmsValidity(c, now).telemetry, pack);
    KeepsTemperatures(c.telemetry, UpdateBmsValidity(c, now).telemetry, temps);
  }

  function Next(f: Option<CanFrame>, s: CanStep, kind: Kind): Option<CanFrame> {
    if s.Rx? && IsFrame(s.frame, kind) then Some(s.frame) else f
  }

  lemma StepSays(c: Can, s: CanStep, motor: Option<CanFrame>, pack: Option<CanFrame>, temps: Option<CanFrame>)
    requires Says(c.telemetry, motor, pack, temps)
    ensures Says(Exec(c, s).telemetry, Next(motor, s, MotorFrame), Next(pack, s, PackFrame),
                 Next(temps, s, TemperatureFrame))
  {
    hide Says, HandleMotorStatus, HandleLbBmsE000, HandleLbBmsE001, UpdateMotorValidity, UpdateBmsValidity;
    PollsSay(c, s.at % TWO_32, motor, pack, temps);
    if s.Rx? {
      MotorSays(c, s.frame, s.at % TWO_32, motor, pack, temps);
      PackSays(c, s.frame, s.at % TWO_32, motor, pack, temps);
      TemperaturesSay(c, s.frame, motor, pack, temps);
    }
  }

  lemma {:induction false} RunSays(c: Can, steps: seq<CanStep>, motor: Option<CanFrame>, pack: Option<CanFrame>,
                                   temps: Option<CanFrame>)
    requires Says(c.telemetry, motor, pack, temps)
    ensures Says(ExecAll(c, steps).telemetry, LastFrame(motor, steps, MotorFrame), LastFrame(pack, steps, PackFrame),
                 LastFrame(temps, steps, TemperatureFrame))
    decreases |steps|
  {
    hide Says, Exec, IsFrame;
    if steps != [] {
      var s := steps[0];
      StepSays(c, s, motor, pack, temps);
      RunSays(Exec(c, s), steps[1..], Next(motor, s, MotorFrame), Next(pack, s, PackFrame),
              Next(temps, s, TemperatureFrame));
    }
  }

  /** From power-up: the telemetry is what the last frames on the bus said, byte by byte. */
  lemma TelemetryIsHistory(steps: seq<CanStep>)
    ensures Says(ExecAll(INITIAL, steps).telemetry, LastFrame(None, steps, MotorFrame),
                 LastFrame(None, steps, PackFrame), LastFrame(None, steps, TemperatureFrame))
  {
    hide ExecAll, LastFrame;
    RunSays(INITIAL, steps, None, None, None);
  }

  // ------------------------------------------------------------------
  // Cycles of the CAN task
  // ------------------------------------------------------------------

  /** The frames waiting at a cycle, each with the true time at which it would be handled, and the two polls. */
  datatype Cycle = Cycle(waiting: seq<(CanFrame, nat)>, motorAt: nat, bmsAt: nat)

  /** A cycle handles at most the first five. */
  function Handled(waiting: seq<(CanFrame, nat)>): seq<(CanFrame, nat)> {
    if |waiting| <= 5 then waiting else waiting[..5]
  }

  function Receptions(frames: seq<(CanFrame, nat)>): seq<CanStep> {
    if frames == [] then [] else [Rx(frames[0].1, frames[0].0)] + Receptions(frames[1..])
  }

  /** The same frames as the firmware sees them, with truncated stamps. */
  function Stamped(frames: seq<(CanFrame, nat)>): (s: seq<(CanFrame, uint32)>)
    ensures |s| == |frames|
    ensures forall k :: 0 <= k < |s| ==> s[k] == (frames[k].0, frames[k].1 % TWO_32)
  {
    if frames == [] then [] else [(frames[0].0, frames[0].1 % TWO_32)] + Stamped(frames[1..])
  }

  /** What a cycle amounts to: its receptions, the motor poll, the pack poll. */
  function StepsOf(c: Cycle): seq<CanStep> {
    Receptions(Handled(c.waiting)) + [Poll(c.motorAt, Motor), Poll(c.bmsAt, Bms)]
  }

  function DoCycle(c: Can, cycle: Cycle): (Can, nat) {
    ProcessRx(c, Stamped(cycle.waiting), cycle.motorAt % TWO_32, cycle.bmsAt % TWO_32)
  }

  /** A frame that raises a fault event after this history. */
  predicate Raises(history: seq<CanStep>, f: CanFrame) {
    exists source :: Refreshes(f, source) && FlagsOf(f, source) != 0 &&
                     FlagsOf(f, source) != LastFlags(0, history, source)
  }

  function RaisedBy(history: seq<CanStep>, frames: seq<(CanFrame, nat)>): nat
    decreases |frames|
  {
    if frames == [] then 0
    else
      (if Raises(history, frames[0].0) then 1 else 0) +
      RaisedBy(history + [Rx(frames[0].1, frames[0].0)], frames[1..])
  }

  lemma {:induction false} ExecAllConcat(c: Can, a: seq<CanStep>, b: seq<CanStep>)
    ensures ExecAll(c, a + b) == ExecAll(ExecAll(c, a), b)
    decreases |a|
  {
    hide Exec;
    if a == [] {
      assert a + b == b;
    } else {
      assert (a + b)[1..] == a[1..] + b;
      ExecAllConcat(Exec(c, a[0]), a[1..], b);
    }
  }

  lemma ExecOne(c: Can, s: CanStep)
    ensures ExecAll(c, [s]) == Exec(c, s)
  {
    assert [s][1..] == [];
  }

  /** The first reception of a batch, and the rest. */
  lemma BatchHead(c: Can, frames: seq<(CanFrame, nat)>)
    requires frames != []
    ensures var first := Receive(c, frames[0].0, frames[0].1 % TWO_32);
            var rest := ReceiveAll(first.0, Stamped(frames[1..]));
            ReceiveAll(c, Stamped(frames)) == (rest.0, (if first.1 then 1 else 0) + rest.1)
  {
    hide Receive;
    assert Stamped(frames)[1..] == Stamped(frames[1..]);
  }

  /** One reception: the state it leaves and whether it raises an event. */
  lemma ReceptionIsStep(history: seq<CanStep>, f: CanFrame, at: nat)
    ensures Receive(ExecAll(INITIAL, history), f, at % TWO_32) ==
            (ExecAll(INITIAL, history + [Rx(at, f)]), Raises(history, f))
  {
    hide ExecAll, Exec, Receive, Raises;
    RaisesIsEvent(history, f, at % TWO_32);
    ExecAllConcat(INITIAL, history, [Rx(at, f)]);
    ExecOne(ExecAll(INITIAL, history), Rx(at, f));
    RxIsReceive(ExecAll(INITIAL, history), Rx(at, f));
  }

  /** A batch of receptions, with the events it raises after this history. */
  lemma {:induction false} BatchIsSteps(history: seq<CanStep>, frames: seq<(CanFrame, nat)>)
    ensures ReceiveAll(ExecAll(INITIAL, history), Stamped(frames)) ==
            (ExecAll(INITIAL, history + Receptions(frames)), RaisedBy(history, frames))
    decreases |frames|
  {
    hide ExecAll, Receive, Raises;
    if frames == [] {
      assert history + [] == history;
    } else {
      BatchSplits(history, frames);
      ReceptionIsStep(history, frames[0].0, frames[0].1);
      BatchHead(ExecAll(INITIAL, history), frames);
      BatchIsSteps(history + [Rx(frames[0].1, frames[0].0)], frames[1..]);
    }
  }

  lemma BatchSplits(history: seq<CanStep>, frames: seq<(CanFrame, nat)>)
    requires frames != []
    ensures var step := Rx(frames[0].1, frames[0].0);
            && history + Receptions(frames) == (history + [step]) + Receptions(frames[1..])
            && RaisedBy(history, frames) ==
               (if Raises(history, frames[0].0) then 1 else 0) + RaisedBy(history + [step], frames[1..])
  {
    hide Raises;
  }

  lemma RxIsReceive(c: Can, s: CanStep)
    requires s.Rx?
    ensures Exec(c, s) == Receive(c, s.frame, s.at % TWO_32).0
  {
  }

  lemma RaisesIsEvent(history: seq<CanStep>, f: CanFrame, now: uint32)
    ensures Receive(ExecAll(INITIAL, history), f, now).1 == Raises(history, f)
  {
    hide ExecAll, Receive, LastFlags;
    EventIffFlagsChange(history, f, now);
  }

  lemma BatchStamps(waiting: seq<(CanFrame, nat)>)
    ensures (if |waiting| <= RX_BATCH then Stamped(waiting) else Stamped(waiting)[..RX_BATCH]) ==
            Stamped(Handled(waiting))
  {
  }

  lemma TwoPolls(c: Can, motorAt: nat, bmsAt: nat)
    ensures ExecAll(c, [Poll(motorAt, Motor), Poll(bmsAt, Bms)]) ==
            UpdateBmsValidity(UpdateMotorValidity(c, motorAt % TWO_32), bmsAt % TWO_32)
  {
    hide UpdateMotorValidity, UpdateBmsValidity;
    var m, b := Poll(motorAt, Motor), Poll(bmsAt, Bms);
    assert [m, b] == [m] + [b];
    ExecAllConcat(c, [m], [b]);
    ExecOne(c, m);
    ExecOne(Exec(c, m), b);
  }

  /**
   One cycle of the CAN task after any history is the reception of its first five frames and then both
   polls, and it raises one event for each of these frames whose flags are nonzero and new.
  */
  lemma CycleIsSteps(history: seq<CanStep>, cycle: Cycle)
    ensures DoCycle(ExecAll(INITIAL, history), cycle) ==
            (ExecAll(INITIAL, history + StepsOf(cycle)), RaisedBy(history, Handled(cycle.waiting)))
  {
    hide ExecAll, Receptions, RaisedBy, Stamped, UpdateMotorValidity, UpdateBmsValidity, ReceiveAll;
    var frames := Handled(cycle.waiting);
    var polls := [Poll(cycle.motorAt, Motor), Poll(cycle.bmsAt, Bms)];
    BatchStamps(cycle.waiting);
    BatchIsSteps(history, frames);
    ExecAllConcat(INITIAL, history + Receptions(frames), polls);
    TwoPolls(ExecAll(INITIAL, history + Receptions(frames)), cycle.motorAt, cycle.bmsAt);
    assert history + StepsOf(cycle) == (history + Receptions(frames)) + polls;
  }

  function DoCycles(c: Can, cycles: seq<Cycle>): Can
    decreases |cycles|
  {
    if cycles == [] then c else DoCycles(DoCycle(c, cycles[0]).0, cycles[1..])
  }

  function History(cycles: seq<Cycle>): seq<CanStep> {
    if cycles == [] then [] else StepsOf(cycles[0]) + History(cycles[1..])
  }

  lemma {:induction false} CyclesExtend(history: seq<CanStep>, cycles: seq<Cycle>)
    ensures DoCycles(ExecAll(INITIAL, history), cycles) == ExecAll(INITIAL, history + History(cycles))
    decreases |cycles|
  {
    hide ExecAll, DoCycle, StepsOf;
    if cycles == [] {
      assert history + [] == history;
    } else {
      CycleIsSteps(history, cycles[0]);
      CyclesExtend(history + StepsOf(cycles[0]), cycles[1..]);
      assert history + History(cycles) == (history + StepsOf(cycles[0])) + History(cycles[1..]);
    }
  }

  /** So every theorem about histories of receptions and polls is one about the cycles of the CAN task. */
  lemma CyclesAreHistory(cycles: seq<Cycle>)
    ensures DoCycles(INITIAL, cycles) == ExecAll(INITIAL, History(cycles))
  {
    CyclesExtend([], cycles);
    assert [] + History(cycles) == History(cycles);
  }

  lemma {:induction false} PolledOftenPrefix(a: seq<CanStep>, b: seq<CanStep>, polled: nat, now: nat, source: Source)
    requires PolledOften(a + b, polled, now, source)
    ensures PolledOften(a, polled, now, source)
    decreases |a|
  {
    if a != [] {
      assert (a + b)[0] == a[0] && (a + b)[1..] == a[1..] + b;
      PolledOftenPrefix(a[1..], b, PolledAfter(polled, a[0], source), a[0].at, source);
    }
  }

  /** The last cycle of a history ends with its two polls. */
  lemma {:induction false} HistoryEnds(cycles: seq<Cycle>)
    requires cycles != []
    ensures var h, last := History(cycles), cycles[|cycles| - 1];
            && |h| >= 2
            && h[|h| - 2] == Poll(last.motorAt, Motor) && h[|h| - 1] == Poll(last.bmsAt, Bms)
  {
    hide Receptions, Handled;
    if |cycles| > 1 {
      HistoryEnds(cycles[1..]);
    } else {
      assert History(cycles) == StepsOf(cycles[0]) + [];
    }
  }
}
