/**
Emergency stops cannot be swallowed, and there is one road from a stop back to
DRIVE.
*/
module VcuRoad {
  import opened Words
  import opened Wrappers
  import opened RelayManager
  import opened TelemetryModel
  import opened VcuLogic
  import opened VcuRuns

  // ------------------------------------------------------------------
  // Emergency stop
  // ------------------------------------------------------------------

  /** Steps of the other tasks between two runs. */
  predicate BetweenRuns(steps: seq<Step>) {
    forall k :: 0 <= k < |steps| ==> !steps[k].RunOnce?
  }

  lemma {:induction false} BetweenRunsKeeps(v: Vcu, steps: seq<Step>)
    requires BetweenRuns(steps) && v.queueCreated
    ensures var w := ExecAll(v, steps);
            && w.state == v.state && w.queueCreated && w.timer == v.timer && w.relays == v.relays
            && (w.eStopPending <==> v.eStopPending || Post(EmergencyStop) in steps)
            && v.queue <= w.queue
    decreases |steps|
  {
    hide Run;
    if steps != [] {
      BetweenRunsKeeps(Exec(v, steps[0]), steps[1..]);
    }
  }

  /**
   An emergency stop posted anywhere among other posts, the queue full or not, ends the next run in
   EMERGENCY_STOP from any other state, with the queued events untouched and the flag consumed.
  */
  lemma EmergencyStopAlwaysActs(v: Vcu, steps: seq<Step>)
    requires v.queueCreated && !v.state.EMERGENCY_STOP?
    requires BetweenRuns(steps) && (Post(EmergencyStop) in steps || v.eStopPending)
    ensures var w := ExecAll(v, steps);
            && Run(w).vcu.state.EMERGENCY_STOP?
            && Run(w).vcu.queue == w.queue
            && !Run(w).vcu.eStopPending && !Latched(Run(w).vcu)
  {
    hide ExecAll, HasCriticalCondition;
    BetweenRunsKeeps(v, steps);
  }

  /** While already stopped the flag is consumed and the run goes on exactly as without it. */
  lemma StopWhileStopped(v: Vcu)
    requires v.state.EMERGENCY_STOP?
    ensures Run(v) == Run(v.(eStopPending := false))
  {
    hide Dispatch, Periodic, HasCriticalCondition;
  }

  // ------------------------------------------------------------------
  // The queue
  // ------------------------------------------------------------------

  /** The posted events other than emergency stops, in order. */
  function Queueable(steps: seq<Step>): seq<VcuEvent> {
    if steps == [] then []
    else (if steps[0].Post? && !steps[0].e.EmergencyStop? then [steps[0].e] else []) + Queueable(steps[1..])
  }

  function FirstEight(events: seq<VcuEvent>): seq<VcuEvent> {
    if |events| <= 8 then events else events[..8]
  }

  lemma StepQueues(v: Vcu, s: Step)
    requires !s.RunOnce? && v.queueCreated && |v.queue| <= 8
    ensures var w := Exec(v, s);
            && w.queueCreated && |w.queue| <= 8
            && w.queue == FirstEight(v.queue + if s.Post? && !s.e.EmergencyStop? then [s.e] else [])
  {
    if s.Post? && !s.e.EmergencyStop? && |v.queue| == 8 {
      assert (v.queue + [s.e])[..8] == v.queue;
    }
    assert v.queue + [] == v.queue;
  }

  lemma FirstEightTwice(q: seq<VcuEvent>, e: seq<VcuEvent>, rest: seq<VcuEvent>)
    requires |q| <= 8 && |e| <= 1
    ensures FirstEight(FirstEight(q + e) + rest) == FirstEight(q + (e + rest))
  {
    assert q + (e + rest) == (q + e) + rest;
    if |q + e| > 8 {
      assert (q + e)[..8] == q && FirstEight(q + rest) == q == FirstEight((q + e) + rest);
    }
  }

  /** Between two runs the queue takes the events in the order they are posted, up to eight; later ones are dropped. */
  lemma {:induction false} QueueIsFifo(v: Vcu, steps: seq<Step>)
    requires BetweenRuns(steps) && v.queueCreated && |v.queue| <= 8
    ensures ExecAll(v, steps).queue == FirstEight(v.queue + Queueable(steps))
    decreases |steps|
  {
    hide Exec, FirstEight;
    if steps == [] {
      assert v.queue + [] == v.queue;
      ShortQueue(v.queue);
    } else {
      var s := steps[0];
      StepQueues(v, s);
      QueueIsFifo(Exec(v, s), steps[1..]);
      FirstEightTwice(v.queue, if s.Post? && !s.e.EmergencyStop? then [s.e] else [], Queueable(steps[1..]));
    }
  }

  lemma ShortQueue(q: seq<VcuEvent>)
    requires |q| <= 8
    ensures FirstEight(q) == q
  {
  }

  /** The last snapshot published. */
  function LastPublished(before: TelemetryData, steps: seq<Step>): TelemetryData
    decreases |steps|
  {
    if steps == [] then before
    else LastPublished(if steps[0].SetTelemetry? then steps[0].d else before, steps[1..])
  }

  /** The machine decides on the last published snapshot; before its mutex and queue exist it takes nothing in. */
  lemma {:induction false} TakesIn(v: Vcu, steps: seq<Step>)
    requires BetweenRuns(steps)
    ensures var w := ExecAll(v, steps);
            && (w.telemetry == if v.mutexCreated then LastPublished(v.telemetry, steps) else v.telemetry)
            && (!v.queueCreated ==> w.queue == v.queue && w.eStopPending == v.eStopPending)
            && w.mutexCreated == v.mutexCreated && w.queueCreated == v.queueCreated
    decreases |steps|
  {
    hide Run;
    if steps != [] {
      TakesIn(Exec(v, steps[0]), steps[1..]);
    }
  }

  // ------------------------------------------------------------------
  // The transition table
  // ------------------------------------------------------------------

  /** Motor error, a reported BMS fault, a timeout outside IDLE, or valid pack data at or beyond a limit. */
  predicate Critical(d: TelemetryData, state: VcuState) {
    || d.motorErrorFlags != 0
    || (d.bmsDataValid && (d.bmsSystemState == 4 || d.bmsPackVoltageDeciV <= 600 || d.bmsPackVoltageDeciV >= 876))
    || ((d.motorTimeoutActive || d.bmsTimeoutActive) && state != IDLE)
  }

  /** What one event does to a state. */
  function After(state: VcuState, e: VcuEvent, d: TelemetryData): VcuState {
    match e
    case EmergencyStop => EMERGENCY_STOP
    case FaultDetected => FAULT
    case Reset => if (state.FAULT? || state.EMERGENCY_STOP?) && AllClear(d) then IDLE else state
    case StartRequest => if state.IDLE? then READY else state
    case DriveEnable => if state.READY? then DRIVE else state
    case NoEvent => state
  }

  /** What the handlers leave alone, and what they command. */
  lemma PeriodicTable(v: Vcu)
    ensures var w, command := Periodic(v).vcu, Periodic(v).command;
            && w.state == v.state && w.queue == v.queue && w.timer == v.timer
            && w.eStopPending == v.eStopPending && w.telemetry == v.telemetry
            && (command.CloseBank? <==> v.state == READY && v.timer <= 20)
            && (command.OpenBank? ==> v.state == FAULT || v.state == EMERGENCY_STOP)
  {
    hide Obey;
  }

  /** What a transition leaves alone. */
  lemma TransitionTable(v: Vcu, next: VcuState)
    ensures var w := TransitionTo(v, next);
            && w.state == next && w.timer == 0 && w.queue == v.queue
            && w.eStopPending == v.eStopPending && w.telemetry == v.telemetry
  {
  }

  /** What one polled event does to the machine. */
  lemma DispatchTable(v: Vcu, e: VcuEvent)
    ensures var w, command := Dispatch(v, e).vcu, Dispatch(v, e).command;
            && w.state == After(v.state, e, v.telemetry) && w.queue == v.queue
            && w.eStopPending == v.eStopPending && w.telemetry == v.telemetry
            && (w.timer == if w.state != v.state || e == FaultDetected || e == EmergencyStop then 0 else v.timer)
            && (command.CloseBank? <==> w.state == READY && w.timer <= 20)
            && (command.OpenBank? ==> w.state == v.state && (w.state == FAULT || w.state == EMERGENCY_STOP))
  {
    hide Periodic, TransitionTo, AllClear, HasCriticalCondition, IsResetInterlockSatisfied;
    CriticalAgrees(v.telemetry, v.state);
    match e
    case EmergencyStop => TransitionTable(v, EMERGENCY_STOP);
    case FaultDetected => TransitionTable(v, FAULT);
    case Reset =>
      TransitionTable(v, IDLE);
      PeriodicTable(v);
    case StartRequest =>
      TransitionTable(v, READY);
      PeriodicTable(if v.state.IDLE? then TransitionTo(v, READY) else v);
    case DriveEnable =>
      TransitionTable(v, DRIVE);
      PeriodicTable(if v.state.READY? then TransitionTo(v, DRIVE) else v);
    case NoEvent => PeriodicTable(v);
  }

  /**
   The whole of one run seen from outside: which of the three causes decides, what becomes of the state,
   the queue and the timer, and when the bank is commanded closed.
  */
  lemma RunTable(v: Vcu)
    ensures var w, command := Run(v).vcu, Run(v).command;
            var stop := v.eStopPending && v.state != EMERGENCY_STOP;
            var fault := !stop && v.state in {IDLE, READY, DRIVE} && Critical(v.telemetry, v.state);
            var polled := !stop && !fault && v.queueCreated && v.queue != [];
            var entered := stop || fault || (polled && v.queue[0] in {FaultDetected, EmergencyStop});
            && w.state == (if stop then EMERGENCY_STOP else if fault then FAULT
                           else if polled then After(v.state, v.queue[0], v.telemetry) else v.state)
            && w.queue == (if polled then v.queue[1..] else v.queue)
            && !w.eStopPending && w.telemetry == v.telemetry
            && (w.timer == if entered || w.state != v.state then 0 else (v.timer + 20) % TWO_32)
            && (command.CloseBank? <==> w.state == READY && w.timer <= 20)
            && (command.OpenBank? ==> w.state == v.state && (w.state == FAULT || w.state == EMERGENCY_STOP))
  {
    hide Periodic, Dispatch, Critical, HasCriticalCondition, After;
    CriticalAgrees(v.telemetry, v.state);
    var ticked := v.(timer := Wrap32(v.timer + TASK_PERIOD_MS), eStopPending := false);
    PeriodicTable(ticked);
    if v.queueCreated && v.queue != [] {
      DispatchTable(ticked.(queue := v.queue[1..]), v.queue[0]);
    }
  }

  lemma CriticalAgrees(d: TelemetryData, state: VcuState)
    ensures Critical(d, state) <==> HasCriticalCondition(d, state)
    ensures state != IDLE ==> (AllClear(d) <==> IsResetInterlockSatisfied(d, state))
  {
  }

  // ------------------------------------------------------------------
  // Leaving a stop
  // ------------------------------------------------------------------

  /** Nothing in the snapshot speaks against leaving a stop. */
  predicate AllClear(d: TelemetryData) {
    && d.motorErrorFlags == 0 && !d.motorTimeoutActive && !d.bmsTimeoutActive
    && !(d.bmsDataValid &&
         (d.bmsSystemState == 4 || d.bmsPackVoltageDeciV <= 600 || d.bmsPackVoltageDeciV >= 876))
  }

  /**
   The RESET interlock: a RESET taken in FAULT or EMERGENCY_STOP leads to IDLE exactly if no motor error,
   no timeout, no reported BMS fault and no critical pack voltage is in the snapshot; otherwise the
   machine stays, and in either case the bank is left alone and the event is used up.
  */
  lemma ResetIffAllClear(v: Vcu)
    requires v.state.FAULT? || v.state.EMERGENCY_STOP?
    requires v.eStopPending ==> v.state.EMERGENCY_STOP?
    requires v.queueCreated && v.queue != [] && v.queue[0] == Reset
    ensures var w := Run(v).vcu;
            && w.state == (if AllClear(v.telemetry) then IDLE else v.state)
            && w.relays == v.relays && w.queue == v.queue[1..]
  {
  }

  // ------------------------------------------------------------------
  // The road to DRIVE
  // ------------------------------------------------------------------

  /** The three events that lead from a stop to DRIVE, each observed in the run that acts on it. */
  datatype Milestone = InterlockReset | StartFromIdle | EnableFromReady

  function MilestoneOf(v: Vcu): seq<Milestone> {
    if AcceptsReset(v) then [InterlockReset]
    else if Polled(v) == Some(StartRequest) && v.state.IDLE? then [StartFromIdle]
    else if Polled(v) == Some(DriveEnable) && v.state.READY? then [EnableFromReady]
    else []
  }

  /** Only a run shows a milestone. */
  function Shown(v: Vcu, s: Step): seq<Milestone> {
    if s.RunOnce? then MilestoneOf(v) else []
  }

  function Milestones(v: Vcu, steps: seq<Step>): seq<Milestone>
    decreases |steps|
  {
    if steps == [] then []
    else Shown(v, steps[0]) + Milestones(Exec(v, steps[0]), steps[1..])
  }

  const ROAD: seq<Milestone> := [InterlockReset, StartFromIdle, EnableFromReady]

  /** How many milestones of the road lie behind a state. */
  function Behind(state: VcuState): (n: nat)
    ensures n <= 3
  {
    match state
    case IDLE => 1
    case READY => 2
    case DRIVE => 3
    case _ => 0
  }

  predicate IsSubsequence<T(==)>(a: seq<T>, b: seq<T>) {
    if a == [] then true
    else if b == [] then false
    else if a[0] == b[0] then IsSubsequence(a[1..], b[1..])
    else IsSubsequence(a, b[1..])
  }

  lemma {:induction false} DropFirst<T>(a: seq<T>, b: seq<T>)
    requires a != [] && IsSubsequence(a, b)
    ensures IsSubsequence(a[1..], b)
    decreases |b|, 1
  {
    if a[0] == b[0] {
      Weaken(a[1..], b);
    } else {
      DropFirst(a, b[1..]);
      Weaken(a[1..], b);
    }
  }

  /** A subsequence of the tail is a subsequence of the whole. */
  lemma {:induction false} Weaken<T>(a: seq<T>, b: seq<T>)
    requires b != [] && IsSubsequence(a, b[1..])
    ensures IsSubsequence(a, b)
    decreases |b|, 0
  {
    if a != [] && a[0] == b[0] {
      DropFirst(a, b[1..]);
    }
  }

  lemma {:induction false} DropMore<T>(a: seq<T>, n: nat, b: seq<T>)
    requires n <= |a| && IsSubsequence(a, b)
    ensures IsSubsequence(a[n..], b)
    decreases n
  {
    if n == 0 {
      assert a[0..] == a;
    } else {
      DropFirst(a, b);
      DropMore(a[1..], n - 1, b);
      assert a[1..][n - 1..] == a[n..];
    }
  }

  /** From `before` to `after` on the road, showing the milestone passed, if any. */
  predicate Advances(before: nat, after: nat, shown: seq<Milestone>) {
    if shown == [] then after <= before
    else before < 3 && after == before + 1 && shown == [ROAD[before]]
  }

  /** A run advances on the road by exactly the milestone it shows, or shows none and does not advance. */
  lemma RunAdvancesByMilestone(v: Vcu)
    ensures Advances(Behind(v.state), Behind(Run(v).vcu.state), MilestoneOf(v))
  {
    hide HasCriticalCondition, IsResetInterlockSatisfied, Periodic;
    var ticked := v.(timer := Wrap32(v.timer + TASK_PERIOD_MS), eStopPending := false);
    PeriodicKeepsState(ticked);
    if v.queue != [] {
      var polled := ticked.(queue := v.queue[1..]);
      PeriodicKeepsState(polled);
      PeriodicKeepsState(TransitionTo(polled, READY));
      PeriodicKeepsState(TransitionTo(polled, DRIVE));
    }
  }

  lemma PeriodicKeepsState(v: Vcu)
    ensures Periodic(v).vcu.state == v.state
  {
    hide LogDue, AllOn, AllOff, DwellCommand;
  }

  /**
   The road to DRIVE. Whenever a machine ends in DRIVE, its runs since any earlier moment contain, in
   order, what was still missing then: an interlock-satisfied RESET if it was stopped (or never
   initialised), a START_REQUEST taken in IDLE, and a DRIVE_ENABLE taken in READY.
  */
  lemma {:induction false} RoadToDrive(v: Vcu, steps: seq<Step>)
    requires ExecAll(v, steps).state.DRIVE?
    ensures IsSubsequence(ROAD[Behind(v.state)..], Milestones(v, steps))
    decreases |steps|
  {
    hide Exec, Shown, IsSubsequence;
    if steps == [] {
      assert ROAD[3..] == [];
      EmptySubsequence<Milestone>([]);
    } else {
      var next := Exec(v, steps[0]);
      RoadToDrive(next, steps[1..]);
      StepAdvances(v, steps[0]);
      RoadStep(Behind(v.state), Behind(next.state), Shown(v, steps[0]), Milestones(next, steps[1..]));
    }
  }

  lemma StepAdvances(v: Vcu, s: Step)
    ensures Advances(Behind(v.state), Behind(Exec(v, s).state), Shown(v, s))
  {
    hide Run, MilestoneOf;
    if s.RunOnce? {
      RunAdvancesByMilestone(v);
    }
  }

  lemma EmptySubsequence<T>(b: seq<T>)
    ensures IsSubsequence([], b)
  {
  }

  lemma RoadStep(before: nat, after: nat, shown: seq<Milestone>, rest: seq<Milestone>)
    requires before <= 3 && after <= 3 && IsSubsequence(ROAD[after..], rest)
    requires Advances(before, after, shown)
    ensures IsSubsequence(ROAD[before..], shown + rest)
  {
    if shown == [] {
      assert shown + rest == rest;
      DropMore(ROAD[after..], before - after, rest);
      assert ROAD[after..][before - after..] == ROAD[before..];
    } else {
      assert (shown + rest)[1..] == rest;
      assert ROAD[before..][1..] == ROAD[after..];
    }
  }

  /** From a stop nothing less will do. */
  lemma StopToDrive(v: Vcu, steps: seq<Step>)
    requires v.state.FAULT? || v.state.EMERGENCY_STOP?
    requires ExecAll(v, steps).state.DRIVE?
    ensures IsSubsequence([InterlockReset, StartFromIdle, EnableFromReady], Milestones(v, steps))
  {
    hide IsSubsequence;
    RoadToDrive(v, steps);
    assert ROAD[0..] == ROAD;
  }
}
