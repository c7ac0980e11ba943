/**
What the vehicle state machine guarantees over every interleaving of posts,
telemetry updates and runs.
*/
module VcuRuns {
  import opened Words
  import opened TelemetryModel
  import opened RelayManager
  import opened VcuLogic

  datatype Step = Post(e: VcuEvent) | SetTelemetry(d: TelemetryData) | RunOnce

  function Exec(v: Vcu, s: Step): Vcu {
    match s
    case Post(e) => PostEvent(v, e)
    case SetTelemetry(d) => SetTelemetryData(v, d)
    case RunOnce => Run(v).vcu
  }

  function ExecAll(v: Vcu, steps: seq<Step>): Vcu
    decreases |steps|
  {
    if steps == [] then v else ExecAll(Exec(v, steps[0]), steps[1..])
  }

  // ------------------------------------------------------------------
  // The reachable states
  // ------------------------------------------------------------------

  predicate Closed(v: Vcu) {
    BankClosed(v.relays)
  }

  predicate Open(v: Vcu) {
    BankOpen(v.relays)
  }

  /** The dwell handler of the present state has opened the bank since the state was entered. */
  predicate Latched(v: Vcu) {
    (v.state.FAULT? && v.openedInFault) || (v.state.EMERGENCY_STOP? && v.openedInEstop)
  }

  ghost predicate Inv(v: Vcu) {
    && Consistent(v.relays)
    && (Closed(v) || Open(v))
    && EmergencyStop !in v.queue
    && |v.queue| <= QUEUE_LENGTH
    && (v.state.READY? || v.state.DRIVE? ==> Closed(v))
    && (v.state.INIT? ==> Open(v))
    && (Latched(v) ==> Open(v))
  }

  lemma OpenIsNotClosed(v: Vcu)
    ensures !(Open(v) && Closed(v))
  {
    assert ALL_OPEN[0] != ALL_CLOSED[0];
  }

  lemma ObeyKeeps(v: Vcu, command: RelayCommand)
    requires Consistent(v.relays)
    ensures Consistent(Obey(v, command).relays)
    ensures command.CloseBank? ==> Closed(Obey(v, command))
    ensures command.OpenBank? ==> Open(Obey(v, command))
    ensures Obey(v, command) == v.(relays := Obey(v, command).relays)
  {
    hide Consistent;
    BankOperations(v.relays);
  }

  lemma PeriodicKeepsInv(v: Vcu)
    requires Consistent(v.relays) && (Closed(v) || Open(v))
    requires EmergencyStop !in v.queue && |v.queue| <= QUEUE_LENGTH
    requires v.state.READY? ==> v.timer <= TASK_PERIOD_MS || Closed(v)
    requires v.state.DRIVE? ==> Closed(v)
    requires v.state.INIT? || Latched(v) ==> Open(v)
    ensures Inv(Periodic(v).vcu)
    ensures Periodic(v).vcu.state == v.state
  {
    hide BankOpen, BankClosed, Consistent, LogDue, Obey;
    ObeyKeeps(v, NoCommand);
    ObeyKeeps(v, CloseBank);
    ObeyKeeps(v, OpenBank);
    KeepsBank(v);
  }

  lemma KeepsBank(v: Vcu)
    ensures Obey(v, NoCommand) == v
  {
  }

  lemma RunKeepsInv(v: Vcu)
    requires Inv(v)
    ensures Inv(Run(v).vcu)
  {
    hide BankOpen, BankClosed, Consistent, HasCriticalCondition, IsResetInterlockSatisfied, Periodic;
    var ticked := v.(timer := Wrap32(v.timer + TASK_PERIOD_MS), eStopPending := false);
    if !StopsNow(v) && !FaultsNow(v) {
      if v.queueCreated && v.queue != [] {
        DispatchKeepsInv(ticked.(queue := v.queue[1..]), v.queue[0]);
      } else {
        PeriodicKeepsInv(ticked);
      }
    }
  }

  lemma DispatchKeepsInv(v: Vcu, e: VcuEvent)
    requires Inv(v)
    ensures Inv(Dispatch(v, e).vcu)
  {
    hide BankOpen, BankClosed, Consistent, HasCriticalCondition, IsResetInterlockSatisfied, Periodic;
    PeriodicKeepsInv(v);
    if v.state.IDLE? && e.StartRequest? {
      PeriodicKeepsInv(TransitionTo(v, READY));
    } else if v.state.READY? && e.DriveEnable? {
      PeriodicKeepsInv(TransitionTo(v, DRIVE));
    }
  }

  lemma ExecKeepsInv(v: Vcu, s: Step)
    requires Inv(v)
    ensures Inv(Exec(v, s))
  {
    hide Consistent, Run;
    if s.RunOnce? {
      RunKeepsInv(v);
    }
  }

  lemma {:induction false} ExecAllKeepsInv(v: Vcu, steps: seq<Step>)
    requires Inv(v)
    ensures Inv(ExecAll(v, steps))
    decreases |steps|
  {
    hide Inv, Exec;
    if steps != [] {
      ExecKeepsInv(v, steps[0]);
      ExecAllKeepsInv(Exec(v, steps[0]), steps[1..]);
    }
  }

  /** A machine over a bank that `begin` has just set up, then initialised. */
  function Started(relays: Relays, queueOk: bool, mutexOk: bool): Vcu {
    Init(Boot(Begun(relays)), queueOk, mutexOk)
  }

  /** Resting in IDLE with nothing pending and no telemetry yet. */
  predicate Fresh(v: Vcu) {
    v.state.IDLE? && v.queueCreated && v.queue == [] && !v.eStopPending && v.telemetry == ZERO_TELEMETRY
  }

  /** IDLE, with the bank open, only when both allocations succeeded; otherwise INIT, closed to telemetry or to all. */
  lemma InitOutcome(v: Vcu, queueOk: bool, mutexOk: bool)
    requires v.state.INIT? && !v.queueCreated && !v.mutexCreated
    ensures var w := Init(v, queueOk, mutexOk);
            && (w.state == if queueOk && mutexOk then IDLE else INIT)
            && (w.queueCreated <==> queueOk) && (w.mutexCreated <==> queueOk && mutexOk)
            && (queueOk ==> w.queue == [])
            && (w.relays == if queueOk && mutexOk then AllOff(v.relays) else v.relays)
  {
  }

  lemma StartedInv(relays: Relays, queueOk: bool, mutexOk: bool)
    ensures Inv(Started(relays, queueOk, mutexOk)) && Open(Started(relays, queueOk, mutexOk))
    ensures queueOk && mutexOk ==> Fresh(Started(relays, queueOk, mutexOk))
  {
    hide Consistent, Obey;
    BegunIsConsistent(relays);
    var boot := Boot(Begun(relays));
    ObeyKeeps(boot.(queueCreated := true, queue := [], mutexCreated := true), OpenBank);
  }

  /**
   The contactor invariant, for every start and every interleaving: in READY and DRIVE all ten
   contactors are energized and nothing else is; once FAULT or EMERGENCY_STOP has latched nothing is;
   the bank is never partly closed; an emergency stop is never in the queue.
  */
  lemma ContactorInvariant(relays: Relays, queueOk: bool, mutexOk: bool, steps: seq<Step>)
    ensures var v := ExecAll(Started(relays, queueOk, mutexOk), steps);
            && (v.state.READY? || v.state.DRIVE? ==>
                  forall k :: 0 <= k < PINS ==> (Energized(v.relays.chip, k) <==> k < RELAY_TOTAL_CHANNELS))
            && (v.state.INIT? || Latched(v) ==> forall k :: 0 <= k < PINS ==> !Energized(v.relays.chip, k))
            && (Open(v) || Closed(v))
            && EmergencyStop !in v.queue && |v.queue| <= QUEUE_LENGTH
  {
    hide ExecAll, Started;
    var v := ExecAll(Started(relays, queueOk, mutexOk), steps);
    StartedInv(relays, queueOk, mutexOk);
    ExecAllKeepsInv(Started(relays, queueOk, mutexOk), steps);
    forall k | 0 <= k < PINS ensures Energized(v.relays.chip, k) <==> GetRelayState(v.relays, k) {
    }
  }

  // ------------------------------------------------------------------
  // Contactors in IDLE
  // ------------------------------------------------------------------

  /**
   Live: READY or DRIVE has been visited since a dwell last latched. Read off the states alone, not
   off the bank.
  */
  predicate LiveAfter(live: bool, v: Vcu) {
    if v.state.READY? || v.state.DRIVE? then true
    else if Latched(v) then false
    else live
  }

  ghost predicate MatchesHistory(v: Vcu, live: bool) {
    Inv(v) && (Closed(v) <==> live)
  }

  /** The bank moves only by command: closing in READY, opening as a dwell latches or re-asserts. */
  ghost predicate CommandExplains(v: Vcu, r: RunResult) {
    && (r.command.CloseBank? ==> r.vcu.state.READY?)
    && (r.command.OpenBank? ==> Latched(r.vcu))
    && (r.command.NoCommand? ==> r.vcu.relays == v.relays)
  }

  lemma PeriodicCommand(v: Vcu)
    requires Consistent(v.relays)
    ensures CommandExplains(v, Periodic(v)) && Periodic(v).vcu.state == v.state
  {
    hide Obey, LogDue;
    KeepsBank(v);
    ObeyKeeps(v, OpenBank);
    ObeyKeeps(v, CloseBank);
  }

  lemma DispatchCommand(v: Vcu, e: VcuEvent)
    requires Consistent(v.relays)
    ensures CommandExplains(v, Dispatch(v, e))
    ensures Dispatch(v, e).vcu.state.IDLE? ==>
              v.state.IDLE? || (e.Reset? && (v.state.FAULT? || v.state.EMERGENCY_STOP?)
                                && IsResetInterlockSatisfied(v.telemetry, v.state))
  {
    hide BankOpen, BankClosed, Consistent, Periodic, HasCriticalCondition, IsResetInterlockSatisfied;
    PeriodicCommand(v);
    PeriodicCommand(TransitionTo(v, READY));
    PeriodicCommand(TransitionTo(v, DRIVE));
  }

  lemma RunCommand(v: Vcu)
    requires Consistent(v.relays)
    ensures CommandExplains(v, Run(v))
    ensures Run(v).vcu.state.IDLE? ==> v.state.IDLE? || AcceptsReset(v)
  {
    hide BankOpen, BankClosed, Consistent, Periodic, Dispatch, HasCriticalCondition, IsResetInterlockSatisfied, Latched;
    var ticked := v.(timer := Wrap32(v.timer + TASK_PERIOD_MS), eStopPending := false);
    PeriodicCommand(ticked);
    if v.queue != [] {
      DispatchCommand(ticked.(queue := v.queue[1..]), v.queue[0]);
    }
    assert !Latched(TransitionTo(ticked, FAULT)) by { ClearsLatch(ticked); }
  }

  lemma ClearsLatch(v: Vcu)
    ensures !Latched(TransitionTo(v, FAULT)) && !Latched(TransitionTo(v, EMERGENCY_STOP))
  {
  }

  lemma AcceptedReset(v: Vcu)
    requires AcceptsReset(v)
    ensures Run(v).vcu.state.IDLE? && Run(v).vcu.relays == v.relays
  {
    hide HasCriticalCondition, IsResetInterlockSatisfied, Periodic;
  }

  lemma RunFollowsHistory(v: Vcu, live: bool)
    requires MatchesHistory(v, live)
    ensures MatchesHistory(Run(v).vcu, LiveAfter(live, Run(v).vcu))
  {
    hide Consistent, Run;
    RunKeepsInv(v);
    RunCommand(v);
    OpenIsNotClosed(Run(v).vcu);
  }

  /** Every IDLE state from v along the steps has its contactors open. */
  ghost predicate IdleAlwaysOpen(v: Vcu, steps: seq<Step>)
    decreases |steps|
  {
    && (v.state.IDLE? ==> Open(v))
    && (steps == [] || IdleAlwaysOpen(Exec(v, steps[0]), steps[1..]))
  }

  /** Somewhere along the steps a RESET is accepted while live, before the dwell has latched. */
  predicate EarlyReset(v: Vcu, live: bool, steps: seq<Step>)
    decreases |steps|
  {
    steps != [] &&
    ((steps[0].RunOnce? && AcceptsReset(v) && live && !Latched(v)) ||
     (var next := Exec(v, steps[0]);
      EarlyReset(next, if steps[0].RunOnce? then LiveAfter(live, next) else live, steps[1..])))
  }

  lemma ExecFollowsHistory(v: Vcu, live: bool, s: Step)
    requires MatchesHistory(v, live)
    ensures MatchesHistory(Exec(v, s), if s.RunOnce? then LiveAfter(live, Exec(v, s)) else live)
    ensures !s.RunOnce? ==> Exec(v, s).state == v.state && Exec(v, s).relays == v.relays
  {
    hide Run, Consistent, LiveAfter;
    if s.RunOnce? {
      RunFollowsHistory(v, live);
    }
  }

  /**
   IDLE does not by itself mean open contactors, since a RESET may be taken before the dwell handler
   has run. It does along a run exactly when no RESET is accepted while live and not yet latched.
  */
  lemma {:induction false} IdleOpenIffNoEarlyReset(v: Vcu, live: bool, steps: seq<Step>)
    requires MatchesHistory(v, live) && (v.state.IDLE? ==> !live)
    ensures IdleAlwaysOpen(v, steps) <==> !EarlyReset(v, live, steps)
    decreases |steps|
  {
    hide Exec, Inv, Latched, LiveAfter;
    OpenOrClosed(v);
    if steps != [] {
      var next := Exec(v, steps[0]);
      ExecFollowsHistory(v, live, steps[0]);
      var live' := if steps[0].RunOnce? then LiveAfter(live, next) else live;
      OpenOrClosed(next);
      ResetOutcome(v, live, steps[0]);
      if next.state.IDLE? && live' {
        assert !IdleAlwaysOpen(next, steps[1..]);
      } else {
        IdleOpenIffNoEarlyReset(next, live', steps[1..]);
      }
    }
  }

  lemma OpenOrClosed(v: Vcu)
    requires Inv(v)
    ensures Open(v) <==> !Closed(v)
  {
    OpenIsNotClosed(v);
  }

  /** IDLE is entered live exactly by an early reset. */
  lemma ResetOutcome(v: Vcu, live: bool, s: Step)
    requires MatchesHistory(v, live) && (v.state.IDLE? ==> !live)
    ensures var next := Exec(v, s);
            next.state.IDLE? && (if s.RunOnce? then LiveAfter(live, next) else live)
            <==> s.RunOnce? && AcceptsReset(v) && live && !Latched(v)
  {
    hide Run, Consistent, IsResetInterlockSatisfied;
    OpenIsNotClosed(v);
    if s.RunOnce? {
      RunFollowsHistory(v, live);
      RunCommand(v);
      if AcceptsReset(v) {
        AcceptedReset(v);
      }
      OpenIsNotClosed(Run(v).vcu);
    }
  }

  /** From start-up: IDLE means open contactors if every RESET waits for the latch. */
  lemma IdleOpenFromStart(relays: Relays, queueOk: bool, mutexOk: bool, steps: seq<Step>)
    ensures IdleAlwaysOpen(Started(relays, queueOk, mutexOk), steps)
            <==> !EarlyReset(Started(relays, queueOk, mutexOk), false, steps)
  {
    hide IdleAlwaysOpen, EarlyReset, Started, Inv;
    var v := Started(relays, queueOk, mutexOk);
    StartedInv(relays, queueOk, mutexOk);
    OpenOrClosed(v);
    IdleOpenIffNoEarlyReset(v, false, steps);
  }

  function Round(e: VcuEvent): seq<Step> {
    [Post(e), RunOnce]
  }

  lemma RoundResult(v: Vcu, e: VcuEvent)
    ensures ExecAll(v, Round(e)) == Run(PostEvent(v, e)).vcu
  {
    hide Run, PostEvent;
    assert Round(e)[1..] == [RunOnce];
    assert [RunOnce][1..] == [];
    assert ExecAll(Exec(v, Post(e)), [RunOnce]) == Exec(Exec(v, Post(e)), RunOnce);
  }

  lemma {:induction false} ExecAllConcat(v: Vcu, a: seq<Step>, b: seq<Step>)
    ensures ExecAll(v, a + b) == ExecAll(ExecAll(v, a), b)
    decreases |a|
  {
    hide Exec;
    if a == [] {
      assert a + b == b;
    } else {
      assert (a + b)[1..] == a[1..] + b;
      ExecAllConcat(Exec(v, a[0]), a[1..], b);
    }
  }

  /** The failing input: START, FAULT_DETECTED and RESET on consecutive runs leave IDLE with all ten closed. */
  lemma IdleCanBeClosed(relays: Relays)
    ensures var v := ExecAll(Started(relays, true, true), Round(StartRequest) + (Round(FaultDetected) + Round(Reset)));
            v.state.IDLE? && Closed(v)
  {
    hide Obey, Consistent, Started, ExecAll, Round;
    var v0 := Started(relays, true, true);
    StartedInv(relays, true, true);
    var started := PostEvent(v0, StartRequest);
    var ticked := started.(timer := Wrap32(v0.timer + TASK_PERIOD_MS), queue := []);
    assert started.queue[1..] == [];
    ObeyKeeps(TransitionTo(ticked, READY), CloseBank);
    var v1 := Run(started).vcu;
    RoundResult(v0, StartRequest);
    RoundResult(v1, FaultDetected);
    assert PostEvent(v1, FaultDetected).queue[1..] == [];
    var v2 := Run(PostEvent(v1, FaultDetected)).vcu;
    assert v2.state.FAULT? && v2.relays == v1.relays && v2.queue == [];
    RoundResult(v2, Reset);
    ExecAllConcat(v0, Round(StartRequest), Round(FaultDetected) + Round(Reset));
    ExecAllConcat(v1, Round(FaultDetected), Round(Reset));
  }
}
