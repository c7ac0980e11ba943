/**
Freshness of the two supervised CAN sources. The firmware compares 32-bit tick
counts; here its flags are proved to say what unbounded time says.
*/
module CanFreshness {
  import opened Words
  import opened Wrappers
  import opened TelemetryModel
  import opened CanManager

  /** 500 ms on the 100 Hz tick, for both sources. */
  const TIMEOUT: nat := 50

  lemma TimeoutTicks()
    ensures MsToTicks(CAN_MOTOR_STATUS_TIMEOUT_MS) == MsToTicks(CAN_BMS_STATUS_TIMEOUT_MS) == TIMEOUT
  {
  }

  datatype Source = Motor | Bms

  /** The steps of the CAN task, each at a true time counted in ticks without bound. */
  datatype CanStep = Rx(at: nat, frame: CanFrame) | Poll(at: nat, source: Source)

  function Exec(c: Can, s: CanStep): Can {
    match s
    case Rx(at, f) => Receive(c, f, at % TWO_32).0
    case Poll(at, Motor) => UpdateMotorValidity(c, at % TWO_32)
    case Poll(at, Bms) => UpdateBmsValidity(c, at % TWO_32)
  }

  function ExecAll(c: Can, steps: seq<CanStep>): Can
    decreases |steps|
  {
    if steps == [] then c else ExecAll(Exec(c, steps[0]), steps[1..])
  }

  /** A well-formed frame of the source. */
  predicate Refreshes(f: CanFrame, source: Source) {
    match source
    case Motor => !f.extended && f.id == 0x200 && f.dlc >= 4
    case Bms => f.extended && f.id == 0xE000 && f.dlc >= 8
  }

  // ------------------------------------------------------------------
  // One watch for both sources
  // ------------------------------------------------------------------

  /** What the firmware remembers of a source. */
  datatype Watch = Watch(hasSeen: bool, valid: bool, lastTick: uint32)

  function WatchOf(c: Can, source: Source): Watch {
    match source
    case Motor => Watch(c.hasSeenMotor, c.motor.isValid, c.lastMotorTick)
    case Bms => Watch(c.hasSeenE000, c.e000Valid, c.lastE000Tick)
  }

  function Checked(w: Watch, now: uint32): Watch {
    w.(valid := w.valid && !IsTimedOut(w.hasSeen, w.valid, now, w.lastTick, TIMEOUT))
  }

  /** The watch of a source moves only with its own frames and polls. */
  lemma WatchMoves(c: Can, s: CanStep, source: Source)
    ensures WatchOf(Exec(c, s), source) ==
            if s.Rx? && Refreshes(s.frame, source) then Watch(true, true, s.at % TWO_32)
            else if s.Poll? && s.source == source then Checked(WatchOf(c, source), s.at % TWO_32)
            else WatchOf(c, source)
  {
    TimeoutTicks();
    hide MsToTicks, Sub32, BigEndian16, AsInt16, AsInt8, PackFlags;
  }

  /** The published flags are the watch's flags. */
  ghost predicate FlagsShown(c: Can) {
    && (c.telemetry.motorDataValid <==> c.motor.isValid)
    && (c.telemetry.motorTimeoutActive <==> c.hasSeenMotor && !c.motor.isValid)
    && (c.telemetry.bmsDataValid <==> c.e000Valid)
    && (c.telemetry.bmsTimeoutActive <==> c.hasSeenE000 && !c.e000Valid)
    && (c.motor.isValid ==> c.hasSeenMotor)
    && (c.e000Valid ==> c.hasSeenE000)
  }

  lemma ExecKeepsFlagsShown(c: Can, s: CanStep)
    requires FlagsShown(c)
    ensures FlagsShown(Exec(c, s))
  {
    hide MsToTicks, Sub32, BigEndian16, AsInt16, AsInt8, PackFlags;
  }

  // ------------------------------------------------------------------
  // Against true time
  // ------------------------------------------------------------------

  /**
   The watch against true time `now`: the source was last seen at `seen` (if ever) and last polled at
   `polled`.
  */
  ghost predicate Truthful(w: Watch, seen: Option<nat>, polled: nat, now: nat) {
    && polled <= now
    && (w.hasSeen <==> seen.Some?)
    && (seen.None? ==> !w.valid)
    && (seen.Some? ==>
          && seen.value <= now
          && w.lastTick == seen.value % TWO_32
          && (w.valid <==> polled < seen.value + TIMEOUT))
  }

  /** True elapsed time below 2^32 survives the truncation of both stamps. */
  lemma ElapsedTicks(a: nat, b: nat)
    requires a <= b < a + TWO_32
    ensures Sub32(b % TWO_32, a % TWO_32) == b - a
  {
    var q, d := a / TWO_32, b - a;
    assert b == TWO_32 * q + (a % TWO_32 + d);
    WrapShift(a % TWO_32 + d, q);
    if a % TWO_32 + d < TWO_32 {
      assert b % TWO_32 == a % TWO_32 + d;
    } else {
      assert b % TWO_32 == a % TWO_32 + d - TWO_32;
    }
  }

  /** The timeout predicate in true time: seen, not yet marked, and silent for the timeout. */
  lemma TimedOutIff(hasSeen: bool, lastValid: bool, last: nat, now: nat)
    requires last <= now < last + TWO_32
    ensures IsTimedOut(hasSeen, lastValid, now % TWO_32, last % TWO_32, TIMEOUT) <==>
            hasSeen && lastValid && now - last >= 50
  {
    ElapsedTicks(last, now);
  }

  /** A poll soon enough after the last one keeps the watch truthful, however long the source is silent. */
  lemma PollKeepsTruthful(w: Watch, seen: Option<nat>, polled: nat, now: nat, at: nat)
    requires Truthful(w, seen, polled, now) && now <= at
    requires at - polled <= TWO_32 - TIMEOUT
    ensures Truthful(Checked(w, at % TWO_32), seen, at, at)
  {
    if w.valid {
      ElapsedTicks(seen.value, at);
    }
  }

  function SeenAfter(seen: Option<nat>, s: CanStep, source: Source): Option<nat> {
    if s.Rx? && Refreshes(s.frame, source) then Some(s.at) else seen
  }

  function PolledAfter(polled: nat, s: CanStep, source: Source): nat {
    if s.Poll? && s.source == source then s.at else polled
  }

  /** When the source was last seen over a whole history. */
  function LastSeen(seen: Option<nat>, steps: seq<CanStep>, source: Source): Option<nat>
    decreases |steps|
  {
    if steps == [] then seen else LastSeen(SeenAfter(seen, steps[0], source), steps[1..], source)
  }

  /** Time does not run backwards, and polls of the source are at most 2^32 - TIMEOUT ticks apart. */
  ghost predicate PolledOften(steps: seq<CanStep>, polled: nat, now: nat, source: Source)
    decreases |steps|
  {
    steps == [] ||
    (&& now <= steps[0].at
     && (steps[0].Poll? && steps[0].source == source ==> steps[0].at - polled <= TWO_32 - TIMEOUT)
     && PolledOften(steps[1..], PolledAfter(polled, steps[0], source), steps[0].at, source))
  }

  lemma StepKeepsTruthful(c: Can, s: CanStep, source: Source, seen: Option<nat>, polled: nat, now: nat)
    requires Truthful(WatchOf(c, source), seen, polled, now)
    requires PolledOften([s], polled, now, source)
    ensures Truthful(WatchOf(Exec(c, s), source), SeenAfter(seen, s, source), PolledAfter(polled, s, source), s.at)
  {
    hide Exec, Refreshes;
    WatchMoves(c, s, source);
    if s.Poll? && s.source == source {
      PollKeepsTruthful(WatchOf(c, source), seen, polled, now, s.at);
    }
  }

  /**
   Freshness refinement. After any history that ends in a poll of the source, its data are shown
   valid exactly if a well-formed frame came less than the timeout ago in true time, and shown timed
   out exactly if one came, but not that recently; silences longer than the tick counter included.
  */
  lemma {:induction false} FreshnessIsTrue(c: Can, steps: seq<CanStep>, source: Source,
                                           seen: Option<nat>, polled: nat, now: nat)
    requires Truthful(WatchOf(c, source), seen, polled, now) && FlagsShown(c)
    requires steps != [] && PolledOften(steps, polled, now, source)
    requires steps[|steps| - 1].Poll? && steps[|steps| - 1].source == source
    ensures var t, at, last := ExecAll(c, steps).telemetry, steps[|steps| - 1].at, LastSeen(seen, steps, source);
            && ShownValid(t, source) == (last.Some? && at - last.value < TIMEOUT)
            && ShownTimedOut(t, source) == (last.Some? && at - last.value >= TIMEOUT)
    decreases |steps|
  {
    hide Exec, Truthful, FlagsShown, WatchOf, ShownValid, ShownTimedOut;
    var s, next := steps[0], Exec(c, steps[0]);
    assert PolledOften([s], polled, now, source);
    StepKeepsTruthful(c, s, source, seen, polled, now);
    ExecKeepsFlagsShown(c, s);
    var seen', polled' := SeenAfter(seen, s, source), PolledAfter(polled, s, source);
    if |steps| == 1 {
      assert ExecAll(c, steps) == next;
      assert LastSeen(seen, steps, source) == seen';
      ShownByWatch(next, source, seen', s.at);
    } else {
      FreshnessIsTrue(next, steps[1..], source, seen', polled', s.at);
    }
  }

  predicate ShownValid(t: TelemetryData, source: Source) {
    match source case Motor => t.motorDataValid case Bms => t.bmsDataValid
  }

  predicate ShownTimedOut(t: TelemetryData, source: Source) {
    match source case Motor => t.motorTimeoutActive case Bms => t.bmsTimeoutActive
  }

  lemma ShownByWatch(c: Can, source: Source, seen: Option<nat>, at: nat)
    requires FlagsShown(c) && Truthful(WatchOf(c, source), seen, at, at)
    ensures ShownValid(c.telemetry, source) == (seen.Some? && at - seen.value < TIMEOUT)
    ensures ShownTimedOut(c.telemetry, source) == (seen.Some? && at - seen.value >= TIMEOUT)
  {
  }

  /** The same from power-up. */
  lemma FreshnessFromPowerUp(steps: seq<CanStep>, source: Source)
    requires steps != [] && PolledOften(steps, 0, 0, source)
    requires steps[|steps| - 1].Poll? && steps[|steps| - 1].source == source
    ensures var t, at, last := ExecAll(INITIAL, steps).telemetry, steps[|steps| - 1].at, LastSeen(None, steps, source);
            && ShownValid(t, source) == (last.Some? && at - last.value < TIMEOUT)
            && ShownTimedOut(t, source) == (last.Some? && at - last.value >= TIMEOUT)
  {
    FreshnessIsTrue(INITIAL, steps, source, None, 0, 0);
  }

  /**
   The bound on the poll distance is sharp: at every distance beyond it, up to a full turn of the
   counter, a source last seen shortly before the earlier poll passes for fresh at the later one.
  */
  lemma RarePollsAreFooled(polled: nat, at: nat)
    requires polled >= TIMEOUT - 1
    requires TWO_32 - TIMEOUT < at - polled <= TWO_32
    ensures var seen := polled - (TIMEOUT - 1);
            var w := Watch(true, true, seen % TWO_32);
            && Truthful(w, Some(seen), polled, polled)
            && at - seen >= TIMEOUT && Checked(w, at % TWO_32).valid
            && !Truthful(Checked(w, at % TWO_32), Some(seen), at, at)
  {
    var seen := polled - (TIMEOUT - 1);
    assert at - TWO_32 >= seen;
    ElapsedTicks(seen, at - TWO_32);
    FullTurn(at);
  }

  lemma FullTurn(at: nat)
    requires at >= TWO_32
    ensures (at - TWO_32) % TWO_32 == at % TWO_32
  {
  }

  // ------------------------------------------------------------------
  // Fault events
  // ------------------------------------------------------------------

  /** The flags a well-formed frame of the source stands for. */
  function FlagsOf(f: CanFrame, source: Source): uint8
    requires Refreshes(f, source)
  {
    match source
    case Motor => if f.dlc >= 5 then f.data[4] else 0
    case Bms =>
      var deciV := f.data[2] as int * 256 + f.data[3] as int;
      if deciV <= 600 then 1 else if deciV >= 876 then 2 else 0
  }

  /** The flags of the last well-formed frame of the source, none before the first. */
  function LastFlags(before: uint8, steps: seq<CanStep>, source: Source): uint8
    decreases |steps|
  {
    if steps == [] then before
    else
      var now := if steps[0].Rx? && Refreshes(steps[0].frame, source) then FlagsOf(steps[0].frame, source) else before;
      LastFlags(now, steps[1..], source)
  }

  function RememberedFlags(c: Can, source: Source): uint8 {
    if source.Bms? then c.packFaultFlags else c.motor.errorFlags
  }

  lemma ExecRemembers(c: Can, s: CanStep, source: Source)
    ensures RememberedFlags(Exec(c, s), source) == LastFlags(RememberedFlags(c, source), [s], source)
  {
    hide MsToTicks, Sub32, AsInt16, AsInt8;
    assert [s][0] == s && [s][1..] == [];
  }

  lemma {:induction false} ExecAllRemembers(c: Can, steps: seq<CanStep>, source: Source)
    ensures RememberedFlags(ExecAll(c, steps), source) == LastFlags(RememberedFlags(c, source), steps, source)
    decreases |steps|
  {
    hide Exec, Refreshes, FlagsOf, RememberedFlags;
    if steps != [] {
      ExecRemembers(c, steps[0], source);
      assert [steps[0]][1..] == [] && [steps[0]][0] == steps[0];
      ExecAllRemembers(Exec(c, steps[0]), steps[1..], source);
    }
  }

  /**
   Over any history a received frame raises a fault event iff it is a well-formed frame of a supervised
   source whose flags are nonzero and differ from those of the source's previous well-formed frame.
   Silences and timeouts in between forget nothing, so a fault that persists through one is not raised
   again.
  */
  lemma EventIffFlagsChange(steps: seq<CanStep>, f: CanFrame, now: uint32)
    ensures Receive(ExecAll(INITIAL, steps), f, now).1 <==>
            exists source :: Refreshes(f, source) && FlagsOf(f, source) != 0 &&
                             FlagsOf(f, source) != LastFlags(0, steps, source)
  {
    hide ExecAll, LastFlags;
    ExecAllRemembers(INITIAL, steps, Motor);
    ExecAllRemembers(INITIAL, steps, Bms);
    var c := ExecAll(INITIAL, steps);
    if Refreshes(f, Motor) {
      assert !Refreshes(f, Bms);
    }
  }
}
