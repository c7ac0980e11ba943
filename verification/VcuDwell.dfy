/**
Dwelling in FAULT or EMERGENCY_STOP: how soon the contactors open, and how often
the opening is re-asserted, with the 32-bit timer wrapping.
*/
module VcuDwell {
  import opened Words
  import opened TelemetryModel
  import opened RelayManager
  import opened VcuLogic
  import opened VcuRuns

  predicate Stopped(v: Vcu) {
    v.state.FAULT? || v.state.EMERGENCY_STOP?
  }

  // ------------------------------------------------------------------
  // Bounded opening
  // ------------------------------------------------------------------

  /**
   Runs with a telemetry update before each and nothing posted: at some point the bank is open, or a
   RESET is accepted.
  */
  ghost predicate OpensOrResets(v: Vcu, updates: seq<TelemetryData>)
    decreases |updates|
  {
    || Open(v)
    || (updates != [] &&
        (var w := SetTelemetryData(v, updates[0]);
         AcceptsReset(w) || OpensOrResets(Run(w).vcu, updates[1..])))
  }

  /** The number of runs that suffices: one per queued event, one to open, one more if the timer wraps. */
  function RunsNeeded(v: Vcu): nat {
    if v.timer + TASK_PERIOD_MS * (|v.queue| + 1) < TWO_32 then |v.queue| + 1 else |v.queue| + 2
  }

  ghost predicate Dwelling(v: Vcu) {
    Inv(v) && Stopped(v) && !v.eStopPending && v.queueCreated
  }

  /** A run of a dwelling machine opens the bank, takes a RESET, or keeps dwelling closer to opening. */
  lemma DwellProgress(v: Vcu)
    requires Dwelling(v) && !Open(v)
    ensures var w := Run(v).vcu;
            AcceptsReset(v) || Open(w) || (Dwelling(w) && RunsNeeded(w) < RunsNeeded(v))
  {
    hide BankOpen, BankClosed, Consistent, IsResetInterlockSatisfied, HasCriticalCondition, Periodic, LogDue;
    RunKeepsInv(v);
    var ticked := v.(timer := Wrap32(v.timer + TASK_PERIOD_MS), eStopPending := false);
    WrapStep(v.timer);
    PeriodicOpens(ticked);
    if v.queue != [] {
      PeriodicOpens(ticked.(queue := v.queue[1..]));
    }
  }

  lemma WrapStep(t: uint32)
    ensures Wrap32(t + TASK_PERIOD_MS) == if t + TASK_PERIOD_MS < TWO_32 then t + TASK_PERIOD_MS
                                          else t + TASK_PERIOD_MS - TWO_32
  {
  }

  lemma PeriodicOpens(v: Vcu)
    requires Consistent(v.relays) && Stopped(v) && !Latched(v)
    ensures v.timer >= VCU_CONTACTOR_OPEN_DELAY_MS ==> Open(Periodic(v).vcu)
    ensures var w := Periodic(v).vcu;
            w.state == v.state && w.timer == v.timer && w.queue == v.queue
            && w.eStopPending == v.eStopPending && w.queueCreated == v.queueCreated
  {
    hide Obey, LogDue;
    ObeyKeeps(v, OpenBank);
    KeepsBank(v);
  }

  /**
   Bounded opening. From any FAULT or EMERGENCY_STOP state with q events queued, no stop pending and
   nothing further posted, q+1 runs (q+2 if the timer wraps meanwhile) suffice to open the bank or to
   accept a RESET, whatever the telemetry does.
  */
  lemma {:induction false} OpensInTime(v: Vcu, updates: seq<TelemetryData>)
    requires Dwelling(v) && |updates| >= RunsNeeded(v)
    ensures OpensOrResets(v, updates)
    decreases |updates|
  {
    hide Inv, Run, AcceptsReset, Open;
    if !Open(v) {
      var w := SetTelemetryData(v, updates[0]);
      UpdateKeepsDwelling(v, updates[0]);
      DwellProgress(w);
      if !AcceptsReset(w) {
        if Open(Run(w).vcu) {
          assert OpensOrResets(Run(w).vcu, updates[1..]);
        } else {
          OpensInTime(Run(w).vcu, updates[1..]);
        }
      }
    }
  }

  lemma UpdateKeepsDwelling(v: Vcu, d: TelemetryData)
    requires Dwelling(v)
    ensures Dwelling(SetTelemetryData(v, d)) && RunsNeeded(SetTelemetryData(v, d)) == RunsNeeded(v)
    ensures Open(SetTelemetryData(v, d)) <==> Open(v)
  {
  }

  /** For every state a machine can reach from start-up. */
  lemma OpensInTimeFromStart(relays: Relays, mutexOk: bool, steps: seq<Step>, updates: seq<TelemetryData>)
    requires var v := ExecAll(Started(relays, true, mutexOk), steps);
             Stopped(v) && !v.eStopPending && |updates| >= |v.queue| + 2
    ensures OpensOrResets(ExecAll(Started(relays, true, mutexOk), steps), updates)
  {
    hide Run, OpensOrResets, Inv, ExecAll;
    StartedInv(relays, true, mutexOk);
    ExecAllKeepsInv(Started(relays, true, mutexOk), steps);
    QueueStaysCreated(Started(relays, true, mutexOk), steps);
    OpensInTime(ExecAll(Started(relays, true, mutexOk), steps), updates);
  }

  lemma {:induction false} QueueStaysCreated(v: Vcu, steps: seq<Step>)
    requires v.queueCreated
    ensures ExecAll(v, steps).queueCreated
    decreases |steps|
  {
    hide Run;
    if steps != [] {
      RunKeepsQueueCreated(v);
      QueueStaysCreated(Exec(v, steps[0]), steps[1..]);
    }
  }

  lemma PeriodicKeepsQueueCreated(v: Vcu)
    ensures Periodic(v).vcu.queueCreated == v.queueCreated
  {
    hide LogDue, DwellCommand, Obey;
    ObeyTouchesRelaysOnly(v, if v.timer <= TASK_PERIOD_MS then CloseBank else NoCommand);
    ObeyTouchesRelaysOnly(v, DwellCommand(v.timer, v.openedInFault, v.lastFaultLogMs));
    ObeyTouchesRelaysOnly(v, DwellCommand(v.timer, v.openedInEstop, v.lastEstopLogMs));
  }

  lemma RunKeepsQueueCreated(v: Vcu)
    ensures Run(v).vcu.queueCreated == v.queueCreated
  {
    hide HasCriticalCondition, IsResetInterlockSatisfied, Periodic;
    var ticked := v.(timer := Wrap32(v.timer + TASK_PERIOD_MS), eStopPending := false);
    PeriodicKeepsQueueCreated(ticked);
    if v.queue != [] {
      var polled := ticked.(queue := v.queue[1..]);
      PeriodicKeepsQueueCreated(polled);
      PeriodicKeepsQueueCreated(TransitionTo(polled, READY));
      PeriodicKeepsQueueCreated(TransitionTo(polled, DRIVE));
    }
  }

  // ------------------------------------------------------------------
  // Re-assertion
  // ------------------------------------------------------------------

  /** What a dwell handler remembers between runs. */
  datatype Clock = Clock(timer: uint32, latched: bool, last: uint32)

  function ClockOf(v: Vcu): Clock {
    if v.state.FAULT? then Clock(v.timer, v.openedInFault, v.lastFaultLogMs)
    else Clock(v.timer, v.openedInEstop, v.lastEstopLogMs)
  }

  /** The clock a dwell starts with. */
  const ENTRY: Clock := Clock(0, false, 4294966296)

  /** Every entry into either stop starts that clock afresh. */
  lemma EntryClock(v: Vcu)
    ensures ClockOf(TransitionTo(v, FAULT)) == ClockOf(TransitionTo(v, EMERGENCY_STOP)) == ENTRY
  {
  }

  function Tick(c: Clock): Clock {
    var t := Wrap32(c.timer + TASK_PERIOD_MS);
    Clock(t, c.latched || t >= VCU_CONTACTOR_OPEN_DELAY_MS, if LogDue(t, c.last) then t else c.last)
  }

  /** Whether the next tick commands the bank open. */
  predicate TickOpens(c: Clock) {
    DwellCommand(Wrap32(c.timer + TASK_PERIOD_MS), c.latched, c.last).OpenBank?
  }

  function TickN(c: Clock, n: nat): Clock {
    if n == 0 then c else Tick(TickN(c, n - 1))
  }

  /** The run of v stays in its dwell: no transition, no RESET, whatever else is queued or pending. */
  predicate StaysDwelling(v: Vcu) {
    && Stopped(v)
    && (v.eStopPending ==> v.state.EMERGENCY_STOP?)
    && (v.queueCreated && v.queue != [] ==> v.queue[0] in {NoEvent, StartRequest, DriveEnable})
  }

  /** Every run among the steps stays in the dwell; posts and telemetry updates are free. */
  predicate DwellsThrough(v: Vcu, steps: seq<Step>)
    decreases |steps|
  {
    steps == [] ||
    ((steps[0].RunOnce? ==> StaysDwelling(v)) && DwellsThrough(Exec(v, steps[0]), steps[1..]))
  }

  /** The bank command of each run, in order. */
  function Commands(v: Vcu, steps: seq<Step>): seq<RelayCommand>
    decreases |steps|
  {
    if steps == [] then []
    else (if steps[0].RunOnce? then [Run(v).command] else []) + Commands(Exec(v, steps[0]), steps[1..])
  }

  /** The handler of a dwelling state is the second half of a tick. */
  lemma PeriodicIsTick(v: Vcu)
    requires Stopped(v)
    ensures var c := ClockOf(v);
            && ClockOf(Periodic(v).vcu) ==
               Clock(c.timer, c.latched || c.timer >= VCU_CONTACTOR_OPEN_DELAY_MS,
                     if LogDue(c.timer, c.last) then c.timer else c.last)
            && Periodic(v).command == DwellCommand(c.timer, c.latched, c.last)
            && Periodic(v).vcu.state == v.state
  {
    hide LogDue, DwellCommand;
    ObeyTouchesRelaysOnly(v, DwellCommand(v.timer, v.openedInFault, v.lastFaultLogMs));
    ObeyTouchesRelaysOnly(v, DwellCommand(v.timer, v.openedInEstop, v.lastEstopLogMs));
  }

  lemma ObeyTouchesRelaysOnly(v: Vcu, command: RelayCommand)
    ensures Obey(v, command) == v.(relays := Obey(v, command).relays)
  {
    hide AllOn, AllOff;
  }

  lemma DwellRunIsTick(v: Vcu)
    requires StaysDwelling(v)
    ensures Run(v).vcu.state == v.state
    ensures ClockOf(Run(v).vcu) == Tick(ClockOf(v))
    ensures Run(v).command.OpenBank? <==> TickOpens(ClockOf(v))
  {
    hide HasCriticalCondition, IsResetInterlockSatisfied, LogDue, DwellCommand, Periodic;
    var ticked := v.(timer := Wrap32(v.timer + TASK_PERIOD_MS), eStopPending := false);
    PeriodicIsTick(ticked);
    if v.queue != [] {
      PeriodicIsTick(ticked.(queue := v.queue[1..]));
    }
  }

  /** Nothing but the tick count decides when a dwell opens the bank. */
  lemma {:induction false} CommandsAreTicks(v: Vcu, steps: seq<Step>, k: nat)
    requires Stopped(v) && DwellsThrough(v, steps) && k < |Commands(v, steps)|
    ensures Commands(v, steps)[k].OpenBank? <==> TickOpens(TickN(ClockOf(v), k))
    decreases |steps|
  {
    hide Run, Tick, TickOpens;
    var next := Exec(v, steps[0]);
    if steps[0].RunOnce? {
      DwellRunIsTick(v);
      if k > 0 {
        CommandsAreTicks(next, steps[1..], k - 1);
        TickFirst(ClockOf(v), k - 1);
      }
    } else {
      CommandsAreTicks(next, steps[1..], k);
    }
  }

  lemma {:induction false} TickFirst(c: Clock, n: nat)
    ensures TickN(Tick(c), n) == TickN(c, n + 1)
  {
    hide Tick;
    if n > 0 {
      TickFirst(c, n - 1);
    }
  }

  /** The clock n ticks into a dwell, n being 50q + r + 1: logged last at tick 50q + 1. */
  function ScheduledClock(q: nat, r: nat): Clock
    requires r < 50 && 1000 * q + 20 * r + 20 < TWO_32
  {
    Clock(1000 * q + 20 * r + 20, true, 1000 * q + 20)
  }

  lemma NextScheduled(q: nat, r: nat)
    requires r < 50 && 1000 * q + 20 * r + 40 < TWO_32
    ensures Tick(ScheduledClock(q, r)) == if r < 49 then ScheduledClock(q, r + 1) else ScheduledClock(q + 1, 0)
    ensures TickOpens(ScheduledClock(q, r)) <==> r == 49
  {
    var t := 1000 * q + 20 * r + 40;
    assert Wrap32(1000 * q + 20 * r + 20 + TASK_PERIOD_MS) == t;
    assert Sub32(t, 1000 * q + 20) == 20 * r + 20;
  }

  lemma {:induction false} ClockBeforeWrap(q: nat, r: nat)
    requires r < 50 && 1000 * q + 20 * r + 20 < TWO_32
    ensures TickN(ENTRY, 50 * q + r + 1) == ScheduledClock(q, r)
    decreases q, r
  {
    hide Tick, ScheduledClock;
    if r > 0 {
      ClockBeforeWrap(q, r - 1);
      NextScheduled(q, r - 1);
    } else if q > 0 {
      ClockBeforeWrap(q - 1, 49);
      NextScheduled(q - 1, 49);
      assert 50 * (q - 1) + 49 + 1 == 50 * q;
    } else {
      FirstTick();
    }
  }

  lemma NoTicks(c: Clock)
    ensures TickN(c, 0) == c
  {
  }

  lemma FirstTick()
    ensures TickN(ENTRY, 1) == ScheduledClock(0, 0) && TickOpens(ENTRY)
  {
    assert TickN(ENTRY, 1) == Tick(ENTRY);
  }

  /** Tick k is at timer 20(k+1): before the wrap the bank is commanded open exactly at timers 20, 1020, 2020, ... */
  lemma ScheduleBeforeWrap(k: nat)
    requires 20 * (k + 1) < TWO_32
    ensures TickOpens(TickN(ENTRY, k)) <==> k % 50 == 0
  {
    hide TickOpens, TickN, ScheduledClock;
    if k == 0 {
      FirstTick();
      assert TickN(ENTRY, 0) == ENTRY by { NoTicks(ENTRY); }
    } else {
      var q, r := (k - 1) / 50, (k - 1) % 50;
      assert 50 * q + r + 1 == k;
      ClockBeforeWrap(q, r);
      NextScheduled(q, r);
    }
  }

  /**
   The clock of a latched dwell, `gap` ticks after the last opening: the last log is less than 50
   ticks old, and it was an opening unless it fell on the tick at which the timer wrapped.
  */
  ghost predicate Asserted(c: Clock, gap: nat) {
    && c.latched
    && exists k: nat :: k < 50 && Aged(c, k, gap)
  }

  predicate Aged(c: Clock, k: nat, gap: nat) {
    && c.timer == Wrap32(c.last + TASK_PERIOD_MS * k)
    && (gap == k || (gap == k + 50 && c.last < VCU_CONTACTOR_OPEN_DELAY_MS))
  }

  lemma ElapsedTicks(last: uint32, k: nat)
    requires k <= 50
    ensures Wrap32(Wrap32(last + TASK_PERIOD_MS * k) + TASK_PERIOD_MS) == Wrap32(last + TASK_PERIOD_MS * (k + 1))
    ensures Sub32(Wrap32(last + TASK_PERIOD_MS * k), last) == TASK_PERIOD_MS * k
  {
    WrapAdd(last + TASK_PERIOD_MS * k, TASK_PERIOD_MS);
    Elapsed(last, TASK_PERIOD_MS * k);
  }

  lemma Elapsed(last: uint32, d: nat)
    requires d < TWO_32
    ensures Sub32(Wrap32(last + d), last) == d
  {
    if last + d < TWO_32 {
      assert Wrap32(last + d) == last + d;
    } else {
      assert Wrap32(last + d) == last + d - TWO_32;
    }
  }

  lemma WrapId(x: uint32)
    ensures Wrap32(x) == x
  {
  }

  lemma TickKeepsAsserted(c: Clock, gap: nat)
    requires Asserted(c, gap)
    ensures Asserted(Tick(c), if TickOpens(c) then 0 else gap + 1)
  {
    hide Wrap32, Sub32;
    var k: nat :| k < 50 && Aged(c, k, gap);
    ElapsedTicks(c.last, k);
    Elapsed(c.last, TASK_PERIOD_MS * (k + 1));
    var t := Tick(c);
    WrapId(t.timer);
    if k + 1 < 50 {
      assert Aged(t, k + 1, gap + 1);
    } else if TickOpens(c) {
      assert Aged(t, 0, 0);
    } else {
      if c.last < VCU_CONTACTOR_OPEN_DELAY_MS {
        WrapId(c.last + 1000);
      }
      assert gap == k;
      assert Aged(t, 0, 50);
    }
  }

  lemma {:induction false} DwellStaysAsserted(n: nat) returns (gap: nat)
    requires n >= 1
    ensures Asserted(TickN(ENTRY, n), gap)
  {
    if n == 1 {
      assert TickN(ENTRY, 1) == Tick(ENTRY);
      assert Aged(Tick(ENTRY), 0, 0);
      gap := 0;
    } else {
      var before := DwellStaysAsserted(n - 1);
      TickKeepsAsserted(TickN(ENTRY, n - 1), before);
      gap := if TickOpens(TickN(ENTRY, n - 1)) then 0 else before + 1;
    }
  }

  lemma {:induction false} SilenceIsShort(i: nat, n: nat, gap: nat)
    requires i >= 1 && Asserted(TickN(ENTRY, i), gap)
    requires forall j :: i <= j < i + n ==> !TickOpens(TickN(ENTRY, j))
    ensures gap + n < 100
    decreases n
  {
    hide Tick, TickOpens;
    if n > 0 {
      TickKeepsAsserted(TickN(ENTRY, i), gap);
      SilenceIsShort(i + 1, n - 1, gap + 1);
    }
  }

  /**
   Re-assertion for ever: over a dwell of any length, the 32-bit timer wrapping as often as it will,
   any 100 consecutive ticks command the bank open at least once.
  */
  lemma ReassertedWithin100(i: nat)
    ensures exists j :: i <= j < i + 100 && TickOpens(TickN(ENTRY, j))
  {
    if i == 0 {
      assert TickOpens(TickN(ENTRY, 0));
    } else if forall j :: i <= j < i + 100 ==> !TickOpens(TickN(ENTRY, j)) {
      var gap := DwellStaysAsserted(i);
      SilenceIsShort(i, 100, gap);
    }
  }

  /**
   The same of the machine itself: in a dwell since its entry, with any posts and telemetry updates
   that do not end it, the commands follow the schedule before the wrap, and every 100 consecutive
   runs contain an opening before and after it.
  */
  lemma DwellReasserts(v: Vcu, steps: seq<Step>, i: nat)
    requires Stopped(v) && ClockOf(v) == ENTRY && DwellsThrough(v, steps)
    ensures i < |Commands(v, steps)| && 20 * (i + 1) < TWO_32 ==>
              (Commands(v, steps)[i].OpenBank? <==> i % 50 == 0)
    ensures i + 100 <= |Commands(v, steps)| ==>
              exists j :: i <= j < i + 100 && Commands(v, steps)[j].OpenBank?
  {
    hide Run, Tick, TickOpens, Commands, DwellsThrough;
    if i < |Commands(v, steps)| && 20 * (i + 1) < TWO_32 {
      CommandsAreTicks(v, steps, i);
      ScheduleBeforeWrap(i);
    }
    if i + 100 <= |Commands(v, steps)| {
      ReassertedWithin100(i);
      var j :| i <= j < i + 100 && TickOpens(TickN(ENTRY, j));
      CommandsAreTicks(v, steps, j);
    }
  }
}
