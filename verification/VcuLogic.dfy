/**
The vehicle state machine (VcuLogic.h, VcuLogic.cpp): safety predicates, the
event queue with its emergency-stop bypass, and one periodic run.
*/
module VcuLogic {
  import opened Words
  import opened Wrappers
  import opened TelemetryModel
  import opened RelayManager

  const TASK_PERIOD_MS: uint32 := 20
  const VCU_CONTACTOR_OPEN_DELAY_MS: uint32 := 20
  const REASSERT_MS: uint32 := 1000
  const QUEUE_LENGTH: nat := 8
  const BMS_CRITICAL_MIN_PACK_VOLTAGE_DECI_V: uint16 := 600
  const BMS_CRITICAL_MAX_PACK_VOLTAGE_DECI_V: uint16 := 876
  const BMS_FAULT_STATE: uint8 := 4

  datatype VcuState = INIT | IDLE | READY | DRIVE | EMERGENCY_STOP | FAULT

  datatype VcuEvent = NoEvent | StartRequest | DriveEnable | EmergencyStop | FaultDetected | Reset

  // ------------------------------------------------------------------
  // Safety predicates
  // ------------------------------------------------------------------

  predicate PackVoltageCritical(deciV: uint16) {
    deciV <= BMS_CRITICAL_MIN_PACK_VOLTAGE_DECI_V || deciV >= BMS_CRITICAL_MAX_PACK_VOLTAGE_DECI_V
  }

  predicate ReportsFault(d: TelemetryData) {
    d.motorErrorFlags != 0 || (d.bmsDataValid && d.bmsSystemState == BMS_FAULT_STATE)
  }

  predicate HasCriticalCondition(d: TelemetryData, state: VcuState) {
    if ReportsFault(d) then true
    else if d.motorTimeoutActive && !state.IDLE? then true
    else if d.bmsTimeoutActive && !state.IDLE? then true
    else if !d.bmsDataValid then false
    else PackVoltageCritical(d.bmsPackVoltageDeciV)
  }

  predicate IsResetInterlockSatisfied(d: TelemetryData, state: VcuState) {
    if ReportsFault(d) then false
    else if HasCriticalCondition(d, state) then false
    else true
  }

  // ------------------------------------------------------------------
  // State
  // ------------------------------------------------------------------

  datatype RelayCommand = NoCommand | CloseBank | OpenBank

  datatype Vcu = Vcu(
    state: VcuState,
    queueCreated: bool,
    mutexCreated: bool,
    queue: seq<VcuEvent>,
    telemetry: TelemetryData,
    timer: uint32,
    eStopPending: bool,
    openedInEstop: bool,
    openedInFault: bool,
    lastEstopLogMs: uint32,
    lastFaultLogMs: uint32,
    relays: Relays)

  datatype RunResult = RunResult(vcu: Vcu, command: RelayCommand)

  function Boot(relays: Relays): Vcu {
    Vcu(INIT, false, false, [], ZERO_TELEMETRY, 0, false, false, false, 0, 0, relays)
  }

  function Obey(v: Vcu, command: RelayCommand): (w: Vcu)
    ensures w == v.(relays := w.relays)
  {
    match command
    case NoCommand => v
    case CloseBank => v.(relays := AllOn(v.relays))
    case OpenBank => v.(relays := AllOff(v.relays))
  }

  function TransitionTo(v: Vcu, next: VcuState): Vcu {
    var moved := v.(state := next, timer := 0);
    match next
    case EMERGENCY_STOP => moved.(openedInEstop := false, lastEstopLogMs := Wrap32(-1000))
    case FAULT => moved.(openedInFault := false, lastFaultLogMs := Wrap32(-1000))
    case _ => moved
  }

  /** `init`, with the answers of the queue and mutex allocators. */
  function Init(v: Vcu, queueOk: bool, mutexOk: bool): Vcu {
    if !queueOk then v
    else if !mutexOk then v.(queueCreated := true, queue := [])
    else
      var ready := v.(queueCreated := true, queue := [], mutexCreated := true);
      TransitionTo(Obey(ready, OpenBank), IDLE)
  }

  function PostEvent(v: Vcu, e: VcuEvent): Vcu {
    if !v.queueCreated then v
    else if e.EmergencyStop? then v.(eStopPending := true)
    else if |v.queue| < QUEUE_LENGTH then v.(queue := v.queue + [e])
    else v
  }

  function SetTelemetryData(v: Vcu, d: TelemetryData): Vcu {
    if v.mutexCreated then v.(telemetry := d) else v
  }

  // ------------------------------------------------------------------
  // One run
  // ------------------------------------------------------------------

  predicate LogDue(now: uint32, last: uint32) {
    Sub32(now, last) >= REASSERT_MS
  }

  /** What a dwelling handler does with the bank: open it once, then again with every periodic log. */
  function DwellCommand(timer: uint32, alreadyOpen: bool, last: uint32): RelayCommand {
    if timer >= VCU_CONTACTOR_OPEN_DELAY_MS && (!alreadyOpen || LogDue(timer, last)) then OpenBank else NoCommand
  }

  function HandleReady(v: Vcu): RunResult {
    var command := if v.timer <= TASK_PERIOD_MS then CloseBank else NoCommand;
    RunResult(Obey(v, command), command)
  }

  function HandleEmergencyStop(v: Vcu): RunResult {
    var command := DwellCommand(v.timer, v.openedInEstop, v.lastEstopLogMs);
    RunResult(Obey(v, command).(
                openedInEstop := v.openedInEstop || v.timer >= VCU_CONTACTOR_OPEN_DELAY_MS,
                lastEstopLogMs := if LogDue(v.timer, v.lastEstopLogMs) then v.timer else v.lastEstopLogMs),
              command)
  }

  function HandleFault(v: Vcu): RunResult {
    var command := DwellCommand(v.timer, v.openedInFault, v.lastFaultLogMs);
    RunResult(Obey(v, command).(
                openedInFault := v.openedInFault || v.timer >= VCU_CONTACTOR_OPEN_DELAY_MS,
                lastFaultLogMs := if LogDue(v.timer, v.lastFaultLogMs) then v.timer else v.lastFaultLogMs),
              command)
  }

  function Periodic(v: Vcu): RunResult {
    match v.state
    case READY => HandleReady(v)
    case EMERGENCY_STOP => HandleEmergencyStop(v)
    case FAULT => HandleFault(v)
    case _ => RunResult(v, NoCommand)
  }

  function Dispatch(v: Vcu, e: VcuEvent): RunResult {
    if e.EmergencyStop? then RunResult(TransitionTo(v, EMERGENCY_STOP), NoCommand)
    else if e.FaultDetected? then RunResult(TransitionTo(v, FAULT), NoCommand)
    else if e.Reset? && (v.state.FAULT? || v.state.EMERGENCY_STOP?) then
      if IsResetInterlockSatisfied(v.telemetry, v.state) then RunResult(TransitionTo(v, IDLE), NoCommand)
      else RunResult(v, NoCommand)
    else if v.state.IDLE? && e.StartRequest? then Periodic(TransitionTo(v, READY))
    else if v.state.READY? && e.DriveEnable? then Periodic(TransitionTo(v, DRIVE))
    else Periodic(v)
  }

  predicate Operational(state: VcuState) {
    state.IDLE? || state.READY? || state.DRIVE?
  }

  /** A pending emergency stop that this run turns into a transition. */
  predicate StopsNow(v: Vcu) {
    v.eStopPending && !v.state.EMERGENCY_STOP?
  }

  predicate FaultsNow(v: Vcu) {
    Operational(v.state) && HasCriticalCondition(v.telemetry, v.state)
  }

  function Run(v: Vcu): RunResult {
    var ticked := v.(timer := Wrap32(v.timer + TASK_PERIOD_MS), eStopPending := false);
    if StopsNow(v) then RunResult(TransitionTo(ticked, EMERGENCY_STOP), NoCommand)
    else if FaultsNow(v) then RunResult(TransitionTo(ticked, FAULT), NoCommand)
    else if v.queueCreated && v.queue != [] then Dispatch(ticked.(queue := v.queue[1..]), v.queue[0])
    else Periodic(ticked)
  }

  /** The event a run takes from the queue. */
  function Polled(v: Vcu): Option<VcuEvent> {
    if StopsNow(v) || FaultsNow(v) || !v.queueCreated || v.queue == [] then None else Some(v.queue[0])
  }

  /** This run takes a RESET and leaves FAULT or EMERGENCY_STOP for IDLE. */
  predicate AcceptsReset(v: Vcu) {
    && Polled(v) == Some(Reset)
    && (v.state.FAULT? || v.state.EMERGENCY_STOP?)
    && IsResetInterlockSatisfied(v.telemetry, v.state)
  }

  // ------------------------------------------------------------------
  // The object
  // ------------------------------------------------------------------

  class VcuMachine {
    var state: VcuState
    var queueCreated: bool
    var mutexCreated: bool
    var queue: seq<VcuEvent>
    var latestData: TelemetryData
    var stateTimer: uint32
    var eStopPending: bool
    var relaysOpenedInEstop: bool
    var relaysOpenedInFault: bool
    var lastEstopLogMs: uint32
    var lastFaultLogMs: uint32
    const bank: RelayBank

    ghost function Value(): Vcu
      reads this, bank
    {
      Vcu(state, queueCreated, mutexCreated, queue, latestData, stateTimer, eStopPending,
          relaysOpenedInEstop, relaysOpenedInFault, lastEstopLogMs, lastFaultLogMs, bank.Value())
    }

    /** Nothing is queued before the queue exists, and the expander was never written unsafely. */
    ghost predicate Valid()
      reads this, bank
    {
      (!queueCreated ==> queue == []) && bank.Safe()
    }

    constructor (bank: RelayBank)
      requires bank.Safe()
      ensures Valid() && this.bank == bank && Value() == Boot(bank.Value())
    {
      state, queueCreated, mutexCreated, queue := INIT, false, false, [];
      latestData, stateTimer, eStopPending := ZERO_TELEMETRY, 0, false;
      relaysOpenedInEstop, relaysOpenedInFault := false, false;
      lastEstopLogMs, lastFaultLogMs := 0, 0;
      this.bank := bank;
    }

    method Initialize(queueOk: bool, mutexOk: bool)
      requires Valid()
      modifies this, bank
      ensures Valid() && Value() == Init(old(Value()), queueOk, mutexOk)
    {
      if !queueOk {
        return;
      }
      queueCreated, queue := true, [];
      if !mutexOk {
        return;
      }
      mutexCreated := true;
      bank.OpenAll(false);
      MoveTo(IDLE);
    }

    method MoveTo(next: VcuState)
      requires Valid()
      modifies this
      ensures Valid() && Value() == TransitionTo(old(Value()), next)
    {
      state := next;
      stateTimer := 0;
      if next == EMERGENCY_STOP {
        relaysOpenedInEstop := false;
        lastEstopLogMs := Wrap32(-1000);
      } else if next == FAULT {
        relaysOpenedInFault := false;
        lastFaultLogMs := Wrap32(-1000);
      }
    }

    method Post(e: VcuEvent)
      requires Valid()
      modifies this
      ensures Valid() && Value() == PostEvent(old(Value()), e)
    {
      if !queueCreated {
        return;
      }
      if e == EmergencyStop {
        eStopPending := true;
        return;
      }
      if |queue| < QUEUE_LENGTH {
        queue := queue + [e];
      }
    }

    method Publish(d: TelemetryData)
      requires Valid()
      modifies this
      ensures Valid() && Value() == SetTelemetryData(old(Value()), d)
    {
      if !mutexCreated {
        return;
      }
      latestData := d;
    }

    method Poll() returns (e: Option<VcuEvent>)
      requires Valid()
      modifies this`queue
      ensures Valid()
      ensures e == if queueCreated && old(queue) != [] then Some(old(queue)[0]) else None
      ensures queue == if e.Some? then old(queue)[1..] else old(queue)
    {
      if !queueCreated || queue == [] {
        return None;
      }
      e := Some(queue[0]);
      queue := queue[1..];
    }

    method OnReady()
      requires Valid()
      modifies bank
      ensures Valid() && Value() == HandleReady(old(Value())).vcu
    {
      if stateTimer <= TASK_PERIOD_MS {
        bank.CloseAll();
      }
    }

    method OnEmergencyStop()
      requires Valid()
      modifies this, bank
      ensures Valid() && Value() == HandleEmergencyStop(old(Value())).vcu
    {
      if stateTimer >= VCU_CONTACTOR_OPEN_DELAY_MS {
        if !relaysOpenedInEstop {
          bank.OpenAll(false);
          relaysOpenedInEstop := true;
        } else if Sub32(stateTimer, lastEstopLogMs) >= 1000 {
          bank.OpenAll(true);
        }
      }
      if Sub32(stateTimer, lastEstopLogMs) >= 1000 {
        lastEstopLogMs := stateTimer;
      }
    }

    method OnFault()
      requires Valid()
      modifies this, bank
      ensures Valid() && Value() == HandleFault(old(Value())).vcu
    {
      if stateTimer >= VCU_CONTACTOR_OPEN_DELAY_MS {
        if !relaysOpenedInFault {
          bank.OpenAll(false);
          relaysOpenedInFault := true;
        } else if Sub32(stateTimer, lastFaultLogMs) >= 1000 {
          bank.OpenAll(true);
        }
      }
      if Sub32(stateTimer, lastFaultLogMs) >= 1000 {
        lastFaultLogMs := stateTimer;
      }
    }

    method RunPeriodic()
      requires Valid()
      modifies this, bank
      ensures Valid() && Value() == Periodic(old(Value())).vcu
    {
      match state
      case READY => OnReady();
      case EMERGENCY_STOP => OnEmergencyStop();
      case FAULT => OnFault();
      case _ =>
    }

    /** The part of `run` that follows a successful poll. */
    method OnEvent(e: VcuEvent)
      requires Valid()
      modifies this, bank
      ensures Valid() && Value() == Dispatch(old(Value()), e).vcu
    {
      hide Periodic, TransitionTo, HasCriticalCondition, IsResetInterlockSatisfied;
      if e == EmergencyStop {
        MoveTo(EMERGENCY_STOP);
        return;
      }
      if e == FaultDetected {
        MoveTo(FAULT);
        return;
      }
      if e == Reset && (state == FAULT || state == EMERGENCY_STOP) {
        if !IsResetInterlockSatisfied(latestData, state) {
          return;
        }
        MoveTo(IDLE);
        return;
      }
      match state {
        case IDLE =>
          if e == StartRequest {
            MoveTo(READY);
          }
        case READY =>
          if e == DriveEnable {
            MoveTo(DRIVE);
          }
        case _ =>
      }
      RunPeriodic();
    }

    /** `run`. */
    method Step()
      requires Valid()
      modifies this, bank
      ensures Valid() && Value() == Run(old(Value())).vcu
    {
      hide Periodic, Dispatch, TransitionTo, HasCriticalCondition;
      stateTimer := Wrap32(stateTimer + TASK_PERIOD_MS);
      if eStopPending {
        eStopPending := false;
        if state != EMERGENCY_STOP {
          MoveTo(EMERGENCY_STOP);
          return;
        }
      }
      if (state == IDLE || state == READY || state == DRIVE) && HasCriticalCondition(latestData, state) {
        MoveTo(FAULT);
        return;
      }
      var event := Poll();
      if event.Some? {
        OnEvent(event.value);
      } else {
        RunPeriodic();
      }
    }
  }
}
