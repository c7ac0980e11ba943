/**
Properties across components: the two paths from a CAN fault to the contactors,
a record's way from the CAN bus to the receiver, and the way of the panel's stop
button to the state machine.
*/
module VehicleSystem {
  import opened Words
  import opened Wrappers
  import opened TelemetryModel
  import opened VcuLogic
  import CanManager
  import CanFreshness
  import CanHistory
  import VcuRuns
  import VcuRoad
  import Telemetry
  import ReceiverContract
  import HmiRx

  // ------------------------------------------------------------------
  // Fault paths
  // ------------------------------------------------------------------

  /** The event path and the telemetry path judge the pack voltage alike. */
  lemma VoltagePathsAgree(c: CanManager.Can, f: CanManager.CanFrame, now: uint32)
    requires CanFreshness.Refreshes(f, CanFreshness.Bms)
    ensures var after := CanManager.Receive(c, f, now).0;
            && after.telemetry.bmsDataValid
            && (after.packFaultFlags != 0 <==> PackVoltageCritical(after.telemetry.bmsPackVoltageDeciV))
            && (after.packFaultFlags != 0 ==> HasCriticalCondition(after.telemetry, IDLE))
  {
  }

  /** Steps that neither bring a new E000 frame nor poll it stale. */
  predicate StaysFresh(steps: seq<CanFreshness.CanStep>, seenAt: nat) {
    forall k :: 0 <= k < |steps| ==>
      && seenAt <= steps[k].at
      && (steps[k].Rx? ==> !CanFreshness.Refreshes(steps[k].frame, CanFreshness.Bms))
      && (steps[k].Poll? && steps[k].source.Bms? ==> steps[k].at - seenAt < CanFreshness.TIMEOUT)
  }

  /** Pack data known valid, last seen at a true time. */
  ghost predicate Holds(c: CanManager.Can, deciV: uint16, seenAt: nat) {
    && c.hasSeenE000 && c.e000Valid && c.lastE000Tick == seenAt % TWO_32
    && c.telemetry.bmsDataValid && c.telemetry.bmsPackVoltageDeciV == deciV
  }

  lemma StepHolds(c: CanManager.Can, s: CanFreshness.CanStep, deciV: uint16, seenAt: nat)
    requires Holds(c, deciV, seenAt) && StaysFresh([s], seenAt)
    ensures Holds(CanFreshness.Exec(c, s), deciV, seenAt)
  {
    assert [s][0] == s;
    CanFreshness.TimeoutTicks();
    if s.Poll? && s.source.Bms? {
      CanFreshness.ElapsedTicks(seenAt, s.at);
    }
    hide MsToTicks, Sub32, BigEndian16, AsInt16, AsInt8, CanManager.PackFlags;
  }

  lemma {:induction false} RunHolds(c: CanManager.Can, steps: seq<CanFreshness.CanStep>, deciV: uint16, seenAt: nat)
    requires Holds(c, deciV, seenAt) && StaysFresh(steps, seenAt)
    ensures Holds(CanFreshness.ExecAll(c, steps), deciV, seenAt)
    decreases |steps|
  {
    hide Holds, CanFreshness.Exec;
    if steps != [] {
      assert StaysFresh([steps[0]], seenAt);
      StepHolds(c, steps[0], deciV, seenAt);
      assert StaysFresh(steps[1..], seenAt) by {
        assert forall k :: 0 <= k < |steps[1..]| ==> steps[1..][k] == steps[k + 1];
      }
      RunHolds(CanFreshness.Exec(c, steps[0]), steps[1..], deciV, seenAt);
    }
  }

  /**
   A pack voltage fault cannot be lost. After a well-formed E000 frame with a critical voltage, and
   any further CAN steps while it is still fresh, the published snapshot sends the next run from
   IDLE, READY or DRIVE into FAULT, or into EMERGENCY_STOP if a stop is pending, whatever was posted
   and whatever the queue dropped.
  */
  lemma PackFaultNotLost(c: CanManager.Can, f: CanManager.CanFrame, at: nat, steps: seq<CanFreshness.CanStep>,
                         speed: uint16, stamp: uint32, v: Vcu, posts: seq<VcuRuns.Step>)
    requires CanFreshness.Refreshes(f, CanFreshness.Bms)
    requires var deciV := f.data[2] as int * 256 + f.data[3] as int;
             deciV <= 600 || deciV >= 876
    requires StaysFresh(steps, at)
    requires v.mutexCreated && v.queueCreated && Operational(v.state)
    requires forall k :: 0 <= k < |posts| ==> posts[k].Post?
    ensures var after := CanFreshness.ExecAll(CanManager.Receive(c, f, at % TWO_32).0, steps);
            var w := VcuRuns.ExecAll(SetTelemetryData(v, CanManager.Publish(after, speed, stamp)), posts);
            Run(w).vcu.state == if w.eStopPending then EMERGENCY_STOP else FAULT
  {
    hide VcuRuns.ExecAll, CanFreshness.ExecAll;
    var deciV := BigEndian16(f.data[2], f.data[3]);
    var received := CanManager.Receive(c, f, at % TWO_32).0;
    assert Holds(received, deciV, at);
    RunHolds(received, steps, deciV, at);
    var told := SetTelemetryData(v, CanManager.Publish(CanFreshness.ExecAll(received, steps), speed, stamp));
    PostsKeepTelemetry(told, posts);
    VcuRoad.BetweenRunsKeeps(told, posts);
  }

  lemma {:induction false} PostsKeepTelemetry(v: Vcu, posts: seq<VcuRuns.Step>)
    requires forall k :: 0 <= k < |posts| ==> posts[k].Post?
    ensures VcuRuns.ExecAll(v, posts).telemetry == v.telemetry
    decreases |posts|
  {
    if posts != [] {
      PostsKeepTelemetry(VcuRuns.Exec(v, posts[0]), posts[1..]);
    }
  }

  /** Motor error flags, once received, stay critical until a well-formed motor frame clears them. */
  lemma {:induction false} MotorErrorSticks(c: CanManager.Can, steps: seq<CanFreshness.CanStep>, state: VcuState)
    requires c.telemetry.motorErrorFlags != 0
    requires forall k :: 0 <= k < |steps| && steps[k].Rx? ==>
               !CanFreshness.Refreshes(steps[k].frame, CanFreshness.Motor)
    ensures CanFreshness.ExecAll(c, steps).telemetry.motorErrorFlags == c.telemetry.motorErrorFlags
    ensures HasCriticalCondition(CanFreshness.ExecAll(c, steps).telemetry, state)
    ensures !IsResetInterlockSatisfied(CanFreshness.ExecAll(c, steps).telemetry, state)
    decreases |steps|
  {
    hide MsToTicks, Sub32, BigEndian16, AsInt16, AsInt8, CanManager.PackFlags;
    if steps != [] {
      var next := CanFreshness.Exec(c, steps[0]);
      assert next.telemetry.motorErrorFlags == c.telemetry.motorErrorFlags;
      MotorErrorSticks(next, steps[1..], state);
    }
  }

  // ------------------------------------------------------------------
  // The decision to fault, from the true history of the bus
  // ------------------------------------------------------------------

  /** The telemetry says what the last frames said. */
  ghost predicate ReportsMatch(c: CanManager.Can) {
    && c.telemetry.motorErrorFlags == c.motor.errorFlags
    && c.telemetry.bmsSystemState == 0
    && (c.telemetry.bmsDataValid ==> (c.packFaultFlags != 0 <==> PackVoltageCritical(c.telemetry.bmsPackVoltageDeciV)))
  }

  lemma HandlersKeepReports(c: CanManager.Can, f: CanManager.CanFrame, now: uint32)
    requires ReportsMatch(c)
    ensures ReportsMatch(CanManager.HandleLbBmsE000(c, f, now).0)
    ensures ReportsMatch(CanManager.HandleMotorStatus(c, f, now).0)
  {
    hide BigEndian16, AsInt16, CanManager.NotifiesFault;
  }

  lemma ReceiveKeepsReports(c: CanManager.Can, f: CanManager.CanFrame, now: uint32)
    requires ReportsMatch(c)
    ensures ReportsMatch(CanManager.Receive(c, f, now).0)
  {
    hide CanManager.HandleLbBmsE000, CanManager.HandleMotorStatus, CanManager.ParseLbBmsE001, PackVoltageCritical;
    HandlersKeepReports(c, f, now);
  }

  lemma ExecKeepsReports(c: CanManager.Can, s: CanFreshness.CanStep)
    requires ReportsMatch(c)
    ensures ReportsMatch(CanFreshness.Exec(c, s))
  {
    hide MsToTicks, Sub32, CanManager.Receive, PackVoltageCritical;
    if s.Rx? {
      ReceiveKeepsReports(c, s.frame, s.at % TWO_32);
    }
  }

  lemma {:induction false} RunKeepsReports(c: CanManager.Can, steps: seq<CanFreshness.CanStep>)
    requires ReportsMatch(c)
    ensures ReportsMatch(CanFreshness.ExecAll(c, steps))
    decreases |steps|
  {
    hide CanFreshness.Exec, ReportsMatch;
    if steps != [] {
      ExecKeepsReports(c, steps[0]);
      RunKeepsReports(CanFreshness.Exec(c, steps[0]), steps[1..]);
    }
  }

  /** A pack poll leaves the motor's part of the telemetry alone. */
  lemma PackPollKeepsMotor(c: CanManager.Can, at: nat)
    ensures var d := CanFreshness.Exec(c, CanFreshness.Poll(at, CanFreshness.Bms)).telemetry;
            d.motorTimeoutActive == c.telemetry.motorTimeoutActive && d.motorDataValid == c.telemetry.motorDataValid
  {
    hide MsToTicks, Sub32;
  }

  /** Seen at some time, but a timeout or more before `at`. */
  predicate Silent(seen: Option<nat>, at: nat) {
    seen.Some? && at - seen.value >= CanFreshness.TIMEOUT
  }

  predicate Fresh(seen: Option<nat>, at: nat) {
    seen.Some? && at - seen.value < CanFreshness.TIMEOUT
  }

  /**
   Whether the published snapshot is critical, in terms of the bus alone: after any history that ends
   with the two polls of a CAN cycle it is so iff the last motor frame reported an error, or outside IDLE
   a source that has spoken is silent for the timeout in true time, or the last pack frame is fresh and
   its voltage is at or beyond a limit.
  */
  lemma CriticalIffTrueHistory(front: seq<CanFreshness.CanStep>, at: nat, speed: uint16, stamp: uint32, state: VcuState)
    requires front != [] && front[|front| - 1].Poll? && front[|front| - 1].source.Motor?
    requires CanFreshness.PolledOften(front, 0, 0, CanFreshness.Motor)
    requires CanFreshness.PolledOften(front + [CanFreshness.Poll(at, CanFreshness.Bms)], 0, 0, CanFreshness.Bms)
    ensures var full := front + [CanFreshness.Poll(at, CanFreshness.Bms)];
            var motorSeen := CanFreshness.LastSeen(None, front, CanFreshness.Motor);
            var packSeen := CanFreshness.LastSeen(None, full, CanFreshness.Bms);
            var c := CanFreshness.ExecAll(CanManager.INITIAL, full);
            HasCriticalCondition(CanManager.Publish(c, speed, stamp), state) <==>
            || CanFreshness.LastFlags(0, full, CanFreshness.Motor) != 0
            || (!state.IDLE? && Silent(motorSeen, front[|front| - 1].at))
            || (!state.IDLE? && Silent(packSeen, at))
            || (Fresh(packSeen, at) && CanFreshness.LastFlags(0, full, CanFreshness.Bms) != 0)
  {
    hide CanFreshness.ExecAll, CanFreshness.Exec, CanFreshness.LastFlags, CanFreshness.LastSeen,
         CanFreshness.PolledOften, PackVoltageCritical;
    var poll := CanFreshness.Poll(at, CanFreshness.Bms);
    var full := front + [poll];
    var c := CanFreshness.ExecAll(CanManager.INITIAL, full);
    CanFreshness.FreshnessFromPowerUp(front, CanFreshness.Motor);
    CanFreshness.FreshnessFromPowerUp(full, CanFreshness.Bms);
    CanFreshness.ExecAllRemembers(CanManager.INITIAL, full, CanFreshness.Motor);
    CanFreshness.ExecAllRemembers(CanManager.INITIAL, full, CanFreshness.Bms);
    CanHistory.ExecAllConcat(CanManager.INITIAL, front, [poll]);
    CanHistory.ExecOne(CanFreshness.ExecAll(CanManager.INITIAL, front), poll);
    PackPollKeepsMotor(CanFreshness.ExecAll(CanManager.INITIAL, front), at);
    RunKeepsReports(CanManager.INITIAL, full);
  }

  /** A poll at the end says nothing new of a source. */
  lemma {:induction false} PollSaysNothing(seen: Option<nat>, steps: seq<CanFreshness.CanStep>, s: CanFreshness.CanStep,
                                           source: CanFreshness.Source)
    requires s.Poll?
    ensures CanFreshness.LastSeen(seen, steps + [s], source) == CanFreshness.LastSeen(seen, steps, source)
    decreases |steps|
  {
    if steps == [] {
      assert steps + [s] == [s] && [s][1..] == [];
    } else {
      assert (steps + [s])[1..] == steps[1..] + [s];
      PollSaysNothing(CanFreshness.SeenAfter(seen, steps[0], source), steps[1..], s, source);
    }
  }

  /** Polls of both sources, over the whole history of some cycles, often enough for the tick counter. */
  ghost predicate Polled(cycles: seq<CanHistory.Cycle>) {
    && CanFreshness.PolledOften(CanHistory.History(cycles), 0, 0, CanFreshness.Motor)
    && CanFreshness.PolledOften(CanHistory.History(cycles), 0, 0, CanFreshness.Bms)
  }

  /** A reason to be stopped, read off the bus: an error, a silence, or a fresh voltage at or beyond a limit. */
  predicate Grounds(cycles: seq<CanHistory.Cycle>, state: VcuState)
    requires cycles != []
  {
    var h, last := CanHistory.History(cycles), cycles[|cycles| - 1];
    || CanFreshness.LastFlags(0, h, CanFreshness.Motor) != 0
    || (!state.IDLE? && Silent(CanFreshness.LastSeen(None, h, CanFreshness.Motor), last.motorAt))
    || (!state.IDLE? && Silent(CanFreshness.LastSeen(None, h, CanFreshness.Bms), last.bmsAt))
    || (Fresh(CanFreshness.LastSeen(None, h, CanFreshness.Bms), last.bmsAt) &&
        CanFreshness.LastFlags(0, h, CanFreshness.Bms) != 0)
  }

  /** The snapshot published after a cycle. */
  function Snapshot(cycles: seq<CanHistory.Cycle>, speed: uint16, stamp: uint32): TelemetryData {
    CanManager.Publish(CanHistory.DoCycles(CanManager.INITIAL, cycles), speed, stamp)
  }

  /** After any number of cycles of the CAN task the published snapshot is critical iff the bus gives grounds. */
  lemma CriticalIffGrounds(cycles: seq<CanHistory.Cycle>, speed: uint16, stamp: uint32, state: VcuState)
    requires cycles != [] && Polled(cycles)
    ensures HasCriticalCondition(Snapshot(cycles, speed, stamp), state) <==> Grounds(cycles, state)
  {
    hide CanHistory.History, CanHistory.DoCycles, CanFreshness.ExecAll, CanFreshness.LastFlags,
         CanFreshness.LastSeen, CanFreshness.PolledOften, HasCriticalCondition, CanManager.Publish;
    var h, last := CanHistory.History(cycles), cycles[|cycles| - 1];
    var poll := CanFreshness.Poll(last.bmsAt, CanFreshness.Bms);
    CanHistory.HistoryEnds(cycles);
    var front := h[..|h| - 1];
    assert h == front + [poll];
    CanHistory.PolledOftenPrefix(front, [poll], 0, 0, CanFreshness.Motor);
    CanHistory.CyclesAreHistory(cycles);
    PollSaysNothing(None, front, poll, CanFreshness.Motor);
    CriticalIffTrueHistory(front, last.bmsAt, speed, stamp, state);
  }

  /** Outside IDLE the RESET interlock and the critical test are the same question. */
  lemma ClearIffNotCritical(d: TelemetryData, state: VcuState)
    requires !state.IDLE?
    ensures VcuRoad.AllClear(d) <==> !HasCriticalCondition(d, state)
  {
  }

  /** So a RESET taken in a stop is accepted iff the bus, since power-up, gives no ground for the stop. */
  lemma ResetIffNoGrounds(cycles: seq<CanHistory.Cycle>, speed: uint16, stamp: uint32, v: Vcu)
    requires cycles != [] && Polled(cycles)
    requires v.mutexCreated && v.queueCreated && v.queue != [] && v.queue[0] == Reset
    requires v.state.FAULT? || v.state.EMERGENCY_STOP?
    requires v.eStopPending ==> v.state.EMERGENCY_STOP?
    ensures Run(SetTelemetryData(v, Snapshot(cycles, speed, stamp))).vcu.state ==
            if Grounds(cycles, v.state) then v.state else IDLE
  {
    hide Snapshot, Grounds, Polled, Run, HasCriticalCondition, VcuRoad.AllClear;
    var d := Snapshot(cycles, speed, stamp);
    CriticalIffGrounds(cycles, speed, stamp, v.state);
    ClearIffNotCritical(d, v.state);
    VcuRoad.ResetIffAllClear(SetTelemetryData(v, d));
  }

  /** So told, and with nothing queued or pending, a machine in IDLE, READY or DRIVE faults iff it is critical. */
  lemma FaultIffCritical(v: Vcu, d: TelemetryData)
    requires v.mutexCreated && Operational(v.state) && v.queue == [] && !v.eStopPending
    ensures Run(SetTelemetryData(v, d)).vcu.state == if HasCriticalCondition(d, v.state) then FAULT else v.state
  {
    hide HasCriticalCondition;
  }

  // ------------------------------------------------------------------
  // From the bus to the receiver
  // ------------------------------------------------------------------

  lemma E000KeepsShape(c: CanManager.Can, f: CanManager.CanFrame, now: uint32)
    requires Telemetry.FromCan(c.telemetry)
    ensures Telemetry.FromCan(CanManager.HandleLbBmsE000(c, f, now).0.telemetry)
  {
    hide BigEndian16, CanManager.PackFlags, CanManager.NotifiesFault;
  }

  lemma ReceiveKeepsShape(c: CanManager.Can, f: CanManager.CanFrame, now: uint32)
    requires Telemetry.FromCan(c.telemetry)
    ensures Telemetry.FromCan(CanManager.Receive(c, f, now).0.telemetry)
  {
    hide CanManager.HandleLbBmsE000, CanManager.ParseMotorStatus, CanManager.ParseLbBmsE001;
    E000KeepsShape(c, f, now);
  }

  lemma PollKeepsShape(c: CanManager.Can, now: uint32)
    requires Telemetry.FromCan(c.telemetry)
    ensures Telemetry.FromCan(CanManager.UpdateMotorValidity(c, now).telemetry)
    ensures Telemetry.FromCan(CanManager.UpdateBmsValidity(c, now).telemetry)
  {
    hide MsToTicks, Sub32;
  }

  lemma ExecKeepsShape(c: CanManager.Can, s: CanFreshness.CanStep)
    requires Telemetry.FromCan(c.telemetry)
    ensures Telemetry.FromCan(CanFreshness.Exec(c, s).telemetry)
  {
    hide CanManager.Receive, CanManager.UpdateMotorValidity, CanManager.UpdateBmsValidity, Telemetry.FromCan;
    PollKeepsShape(c, s.at % TWO_32);
    if s.Rx? {
      ReceiveKeepsShape(c, s.frame, s.at % TWO_32);
    }
  }

  lemma {:induction false} RunKeepsShape(c: CanManager.Can, steps: seq<CanFreshness.CanStep>)
    requires Telemetry.FromCan(c.telemetry)
    ensures Telemetry.FromCan(CanFreshness.ExecAll(c, steps).telemetry)
    decreases |steps|
  {
    hide CanFreshness.Exec, Telemetry.FromCan;
    if steps != [] {
      ExecKeepsShape(c, steps[0]);
      RunKeepsShape(CanFreshness.Exec(c, steps[0]), steps[1..]);
    }
  }

  /**
   End to end: whatever the bus carries, a snapshot published by the CAN task prints to at most 88
   bytes, and the receiver accepts it with every sanitized field unchanged, unless the motor reports
   more than 20000 rpm, which the firmware forwards and the receiver rejects.
  */
  lemma BusToReceiver(steps: seq<CanFreshness.CanStep>, speed: uint16, stamp: uint32, seqNo: uint32)
    requires speed <= TEL_SPD_X10_MAX
    ensures var d := CanManager.Publish(CanFreshness.ExecAll(CanManager.INITIAL, steps), speed, stamp);
            var line := Telemetry.StatusLine(seqNo, SanitizeForUplink(d));
            && |line| <= 88
            && ReceiverContract.ReceiverVerdict(line) ==
                 if d.motorRpm <= 20000 then Success(Telemetry.FrameOf(seqNo, SanitizeForUplink(d)))
                 else Failure(ReceiverContract.RangeFail)
  {
    hide CanFreshness.ExecAll, Telemetry.StatusLine, ReceiverContract.ReceiverVerdict;
    RunKeepsShape(CanManager.INITIAL, steps);
    var d := CanManager.Publish(CanFreshness.ExecAll(CanManager.INITIAL, steps), speed, stamp);
    Telemetry.CanStatusLineFits(seqNo, d);
    Telemetry.UplinkRoundTrip(seqNo, d);
  }

  /** The values a frame of the receiver has from these bytes, times and stamps. */
  ghost predicate Reports(f: ReceiverContract.Frame, cycles: seq<CanHistory.Cycle>, speed: uint16, stamp: uint32,
                          seqNo: uint32)
    requires cycles != [] && ReceiverContract.Complete(f)
  {
    var h, last := CanHistory.History(cycles), cycles[|cycles| - 1];
    var motor := CanHistory.LastFrame(None, h, CanHistory.MotorFrame);
    var pack := CanHistory.LastFrame(None, h, CanHistory.PackFrame);
    var temps := CanHistory.LastFrame(None, h, CanHistory.TemperatureFrame);
    var motorSeen := CanFreshness.LastSeen(None, h, CanFreshness.Motor);
    var packSeen := CanFreshness.LastSeen(None, h, CanFreshness.Bms);
    && f[ReceiverContract.Seq] == seqNo && f[ReceiverContract.TsMs] == stamp && f[ReceiverContract.SpdX10] == speed
    && f[ReceiverContract.Rpm] == Rpm(motor)
    && f[ReceiverContract.MotorErr] == (if motor.Some? && motor.value.dlc >= 5 then motor.value.data[4] else 0)
    && f[ReceiverContract.MotorValid] == (if Fresh(motorSeen, last.motorAt) then 1 else 0)
    && f[ReceiverContract.MotorTimeout] == (if Silent(motorSeen, last.motorAt) then 1 else 0)
    && f[ReceiverContract.PackV] == (if pack.Some? then CanHistory.Pair(pack.value, 2) else 0)
    && f[ReceiverContract.Current] == (if pack.Some? then CanHistory.SignedPair(pack.value, 0) * 10 else 0)
    && f[ReceiverContract.Soc] == (if pack.Some? then AtMost(CanHistory.Pair(pack.value, 4), 10000) else 0)
    && f[ReceiverContract.BmsValid] == (if Fresh(packSeen, last.bmsAt) then 1 else 0)
    && f[ReceiverContract.TempL] <= f[ReceiverContract.TempH]
    && (temps.Some? ==>
          {f[ReceiverContract.TempL], f[ReceiverContract.TempH]} ==
          {CanHistory.SignedByte(temps.value, 6), CanHistory.SignedByte(temps.value, 7)})
    && f[ReceiverContract.SysState] == 4
  }

  function Rpm(motor: Option<CanManager.CanFrame>): nat {
    if motor.Some? then CanHistory.Pair(motor.value, 0) else 0
  }

  function AtMost(x: nat, limit: nat): nat {
    if x > limit then limit else x
  }

  /**
   From the bytes on the bus to the receiver's fields: after any number of cycles of the CAN task the line
   of the published snapshot is accepted iff the last motor frame's RPM bytes say at most 20000, and then
   every field is what the last frames' bytes, the true ages of the frames, and the stamps say.
  */
  lemma BytesReachReceiver(cycles: seq<CanHistory.Cycle>, speed: uint16, stamp: uint32, seqNo: uint32)
    requires cycles != [] && Polled(cycles) && speed <= TEL_SPD_X10_MAX
    ensures var line := Telemetry.StatusLine(seqNo, SanitizeForUplink(Snapshot(cycles, speed, stamp)));
            var verdict := ReceiverContract.ReceiverVerdict(line);
            var motor := CanHistory.LastFrame(None, CanHistory.History(cycles), CanHistory.MotorFrame);
            && (verdict.Success? <==> Rpm(motor) <= 20000)
            && (verdict.Success? ==>
                  ReceiverContract.Complete(verdict.value) && Reports(verdict.value, cycles, speed, stamp, seqNo))
  {
    hide CanHistory.History, CanHistory.DoCycles, CanHistory.LastFrame, CanFreshness.ExecAll, CanFreshness.LastSeen,
         CanFreshness.PolledOften, Telemetry.StatusLine, ReceiverContract.ReceiverVerdict, SanitizeForUplink;
    var h := CanHistory.History(cycles);
    CanHistory.CyclesAreHistory(cycles);
    CanHistory.TelemetryIsHistory(h);
    FlagsAreAges(cycles);
    Telemetry.LineCarries(seqNo, Snapshot(cycles, speed, stamp));
  }

  /** After a cycle the four freshness flags say the true ages. */
  lemma FlagsAreAges(cycles: seq<CanHistory.Cycle>)
    requires cycles != [] && Polled(cycles)
    ensures var h, last := CanHistory.History(cycles), cycles[|cycles| - 1];
            var d := CanFreshness.ExecAll(CanManager.INITIAL, h).telemetry;
            && (d.motorDataValid <==> Fresh(CanFreshness.LastSeen(None, h, CanFreshness.Motor), last.motorAt))
            && (d.motorTimeoutActive <==> Silent(CanFreshness.LastSeen(None, h, CanFreshness.Motor), last.motorAt))
            && (d.bmsDataValid <==> Fresh(CanFreshness.LastSeen(None, h, CanFreshness.Bms), last.bmsAt))
            && (d.bmsTimeoutActive <==> Silent(CanFreshness.LastSeen(None, h, CanFreshness.Bms), last.bmsAt))
  {
    hide CanHistory.History, CanFreshness.ExecAll, CanFreshness.Exec, CanFreshness.LastSeen, CanFreshness.PolledOften;
    var h, last := CanHistory.History(cycles), cycles[|cycles| - 1];
    var poll := CanFreshness.Poll(last.bmsAt, CanFreshness.Bms);
    CanHistory.HistoryEnds(cycles);
    var front := h[..|h| - 1];
    assert h == front + [poll];
    CanHistory.PolledOftenPrefix(front, [poll], 0, 0, CanFreshness.Motor);
    CanFreshness.FreshnessFromPowerUp(front, CanFreshness.Motor);
    CanFreshness.FreshnessFromPowerUp(h, CanFreshness.Bms);
    PollSaysNothing(None, front, poll, CanFreshness.Motor);
    CanHistory.ExecAllConcat(CanManager.INITIAL, front, [poll]);
    CanHistory.ExecOne(CanFreshness.ExecAll(CanManager.INITIAL, front), poll);
    PackPollKeepsMotor(CanFreshness.ExecAll(CanManager.INITIAL, front), last.bmsAt);
  }

  /**
   The system state is never parsed from the bus, so every accepted line reports FAULT to the
   receiver, in every condition of the vehicle.
  */
  lemma ReceiverAlwaysSeesFault(steps: seq<CanFreshness.CanStep>, speed: uint16, stamp: uint32, seqNo: uint32)
    ensures var d := CanManager.Publish(CanFreshness.ExecAll(CanManager.INITIAL, steps), speed, stamp);
            var verdict := ReceiverContract.ReceiverVerdict(Telemetry.StatusLine(seqNo, SanitizeForUplink(d)));
            verdict.Success? ==>
              ReceiverContract.SysState in verdict.value && verdict.value[ReceiverContract.SysState] == 4
  {
    hide CanFreshness.ExecAll, Telemetry.StatusLine, ReceiverContract.ReceiverVerdict;
    RunKeepsShape(CanManager.INITIAL, steps);
    var d := CanManager.Publish(CanFreshness.ExecAll(CanManager.INITIAL, steps), speed, stamp);
    Telemetry.VerdictOnStatusLine(seqNo, SanitizeForUplink(d));
    var f := Telemetry.FrameOf(seqNo, SanitizeForUplink(d));
    assert f[ReceiverContract.SysState] == 4;
  }

  // ------------------------------------------------------------------
  // From the touch panel to the contactors
  // ------------------------------------------------------------------

  const CMD_START: uint8 := 1
  const CMD_RESET: uint8 := 2
  const CMD_EMERGENCY_STOP: uint8 := 3
  const CMD_DRIVE_ENABLE: uint8 := 4

  function CommandEvent(cmd: uint8): Option<VcuEvent> {
    if cmd == CMD_START then Some(StartRequest)
    else if cmd == CMD_RESET then Some(Reset)
    else if cmd == CMD_EMERGENCY_STOP then Some(EmergencyStop)
    else if cmd == CMD_DRIVE_ENABLE then Some(DriveEnable)
    else None
  }

  /** One cycle of the panel task: at most one command of the scanned buffer is posted. */
  function PanelCycle(rx: HmiRx.Rx, v: Vcu, buffer: seq<uint8>): (HmiRx.Rx, Vcu) {
    var next := HmiRx.After(rx, buffer);
    match HmiRx.FirstCommand(HmiRx.Events(rx, buffer))
    case None => (next, v)
    case Some(cmd) =>
      match CommandEvent(cmd)
      case None => (next, v)
      case Some(e) => (next, PostEvent(v, e))
  }

  /** The four frames of the panel, read from rest, and any other: what each of them posts. */
  lemma PanelFrames(rx: HmiRx.Rx, v: Vcu, c: uint8)
    requires rx.touchState == 0 && HmiRx.Decodable(c)
    ensures PanelCycle(rx, v, HmiRx.Frame(c)).1 ==
            match c
            case 1 => PostEvent(v, StartRequest)
            case 2 => PostEvent(v, Reset)
            case 3 => PostEvent(v, EmergencyStop)
            case 4 => PostEvent(v, DriveEnable)
            case _ => v
  {
    hide HmiRx.Events, HmiRx.After, HmiRx.Frame, HmiRx.Visible, HmiRx.Decodable, HmiRx.FirstCommand;
    HmiRx.FrameFromRest(rx, c);
    HmiRx.FirstVisible(HmiRx.Events(rx, HmiRx.Frame(c)));
  }

  /** The command a scan returns: the first one the frame reader finds beyond those of the bytes before. */
  lemma ScanResult(before: seq<uint8>, buffer: seq<uint8>)
    ensures var known, all := HmiRx.Frames(before), HmiRx.Frames(before + buffer);
            && |known| <= |all|
            && HmiRx.FirstCommand(HmiRx.Events(HmiRx.After(HmiRx.IDLE, before), buffer)) ==
               if |all| == |known| then None else Some(all[|known|])
  {
    hide HmiRx.Events, HmiRx.After, HmiRx.Frames, HmiRx.Commands;
    HmiRx.FeedConcat(HmiRx.IDLE, before, buffer);
    HmiRx.CommandsConcat(HmiRx.Events(HmiRx.IDLE, before), HmiRx.Events(HmiRx.After(HmiRx.IDLE, before), buffer));
    HmiRx.TouchesAreFrames(HmiRx.IDLE, before);
    HmiRx.TouchesAreFrames(HmiRx.IDLE, before + buffer);
  }

  /**
   After any bytes and for any buffer, a scan posts a stop iff the first frame that the buffer completes
   is a stop frame: a stop frame completed later in the same buffer is lost.
  */
  lemma StopPostedIffFirst(before: seq<uint8>, v: Vcu, buffer: seq<uint8>)
    requires v.queueCreated && !v.eStopPending
    ensures var rx := HmiRx.After(HmiRx.IDLE, before);
            var known, all := HmiRx.Frames(before), HmiRx.Frames(before + buffer);
            PanelCycle(rx, v, buffer).1.eStopPending <==> |all| > |known| && all[|known|] == CMD_EMERGENCY_STOP
  {
    hide HmiRx.Events, HmiRx.After, HmiRx.Frames;
    ScanResult(before, buffer);
  }

  /** One stop frame from rest, or after any bytes at all two stop frames in two cycles, reach the controller. */
  lemma StopReachesController(garbage: seq<uint8>, v: Vcu)
    requires v.queueCreated
    ensures var rx := HmiRx.After(HmiRx.IDLE, garbage);
            var first := PanelCycle(rx, v, HmiRx.Frame(CMD_EMERGENCY_STOP));
            && (rx.touchState == 0 ==> first.1.eStopPending)
            && PanelCycle(first.0, first.1, HmiRx.Frame(CMD_EMERGENCY_STOP)).1.eStopPending
  {
    hide HmiRx.Events, HmiRx.After, HmiRx.Frame, HmiRx.Visible;
    var rx := HmiRx.After(HmiRx.IDLE, garbage);
    var first := PanelCycle(rx, v, HmiRx.Frame(CMD_EMERGENCY_STOP));
    HmiRx.DecodableBytes(CMD_EMERGENCY_STOP);
    HmiRx.FirstFrameResynchronises(rx, CMD_EMERGENCY_STOP);
    HmiRx.FirstFrameResynchronises(first.0, CMD_EMERGENCY_STOP);
    HmiRx.FirstVisible(HmiRx.Events(rx, HmiRx.Frame(CMD_EMERGENCY_STOP)));
    HmiRx.FirstVisible(HmiRx.Events(first.0, HmiRx.Frame(CMD_EMERGENCY_STOP)));
  }

  /** So the panel's stop button, pressed twice in any condition of the line, stops the vehicle with the next run. */
  lemma StopButtonStops(garbage: seq<uint8>, v: Vcu, posts: seq<VcuRuns.Step>)
    requires v.queueCreated && !v.state.EMERGENCY_STOP? && VcuRoad.BetweenRuns(posts)
    ensures var first := PanelCycle(HmiRx.After(HmiRx.IDLE, garbage), v, HmiRx.Frame(CMD_EMERGENCY_STOP));
            var second := PanelCycle(first.0, first.1, HmiRx.Frame(CMD_EMERGENCY_STOP));
            Run(VcuRuns.ExecAll(second.1, posts)).vcu.state.EMERGENCY_STOP?
  {
    hide HmiRx.Events, HmiRx.After, HmiRx.Frame, VcuRuns.ExecAll, Run;
    StopReachesController(garbage, v);
    var first := PanelCycle(HmiRx.After(HmiRx.IDLE, garbage), v, HmiRx.Frame(CMD_EMERGENCY_STOP));
    var second := PanelCycle(first.0, first.1, HmiRx.Frame(CMD_EMERGENCY_STOP));
    VcuRoad.EmergencyStopAlwaysActs(second.1, posts);
  }
}
