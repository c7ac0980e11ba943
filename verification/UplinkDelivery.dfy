/**
Which samples of the uplink reach the receiver: exact conditions, on the inputs
of each pass, for losing one to a full ring or to a failed write.
*/
module UplinkDelivery {
  import opened Words
  import opened Wrappers
  import opened TelemetryModel
  import opened LinkMonitor
  import opened LoraTask
  import opened UplinkRuns
  import OfflineBuffer

  // ------------------------------------------------------------------
  // What can go wrong in one pass
  // ------------------------------------------------------------------

  /** The replay loop reaches a write that fails; its entry is dropped unsent. */
  predicate BurstDrops(waiting: nat, ports: seq<Port>) {
    waiting > 0 && ports != [] && ports[0].auxReady &&
    (ports[0].uartResult < 0 || BurstDrops(waiting - 1, ports[1..]))
  }

  /** A tick with the link up that replays into a failing UART. */
  predicate DropsUnsent(s: Uplink, i: LoopInput) {
    var c := Checked(s, i);
    IsTxTick(c, i.tick) && !c.linkDown && BurstDrops(|c.buffer|, i.burst)
  }

  /** A sample is due now. */
  predicate SampleDue(s: Uplink, snapshot: Option<TelemetryData>, nowMs: uint64) {
    snapshot.Some? && OfflineShouldSample(nowMs, s.lastOfflineSampleMs, s.offlineHasSamples, OFFLINE_SAMPLE_PERIOD_MS)
  }

  /** A tick with the link down at which a sample is due and the ring is full. */
  predicate Overflows(s: Uplink, i: LoopInput) {
    var c := Checked(s, i);
    && IsTxTick(c, i.tick) && c.linkDown
    && SampleDue(c, i.snapshot, i.sampleMs) && |c.buffer| >= OfflineBuffer.OB_CAPACITY
  }

  predicate NeverOverflows(s: Uplink, inputs: seq<LoopInput>)
    decreases |inputs|
  {
    inputs == [] || (!Overflows(s, inputs[0]) && NeverOverflows(Iterate(s, inputs[0]).state, inputs[1..]))
  }

  /** No pass of the run overflows the ring or replays into a failing UART. */
  predicate Safe(s: Uplink, inputs: seq<LoopInput>)
    decreases |inputs|
  {
    inputs == [] ||
    (&& !Overflows(s, inputs[0]) && !DropsUnsent(s, inputs[0])
     && Safe(Iterate(s, inputs[0]).state, inputs[1..]))
  }

  // ------------------------------------------------------------------
  // Events of one pass
  // ------------------------------------------------------------------

  lemma LosslessConcat(a: seq<UplinkEvent>, b: seq<UplinkEvent>)
    ensures Lossless(a + b) <==> Lossless(a) && Lossless(b)
    ensures NoEviction(a + b) <==> NoEviction(a) && NoEviction(b)
  {
    var all := a + b;
    assert forall k :: 0 <= k < |a| ==> all[k] == a[k];
    assert forall k :: 0 <= k < |b| ==> all[|a| + k] == b[k];
    assert forall k :: |a| <= k < |all| ==> all[k] == b[k - |a|];
  }

  lemma LosslessOne(e: UplinkEvent)
    ensures Lossless([e]) <==> (TakesOut(e) ==> Delivers(e))
    ensures NoEviction([e]) <==> !e.Evicted?
  {
    assert [e][0] == e;
  }

  lemma {:induction false} BurstLossless(s: Uplink, ports: seq<Port>)
    ensures Lossless(ReplayBurst(s, ports).events) <==> !BurstDrops(|s.buffer|, ports)
    ensures NoEviction(ReplayBurst(s, ports).events)
    decreases |ports|
  {
    hide Lossless, NoEviction;
    NoEvents();
    if ports != [] && s.buffer != [] && ports[0].auxReady {
      var sent := Send(s, true, s.buffer[0], ports[0]);
      var next := sent.state.(buffer := s.buffer[1..]);
      LosslessOne(sent.events[0]);
      BurstLossless(next, ports[1..]);
      LosslessConcat(sent.events, ReplayBurst(next, ports[1..]).events);
    }
  }

  lemma SampleLossless(s: Uplink, snapshot: Option<TelemetryData>, nowMs: uint64)
    ensures var events, full := Sample(s, snapshot, nowMs).events, |s.buffer| >= OfflineBuffer.OB_CAPACITY;
            && (Lossless(events) <==> !(SampleDue(s, snapshot, nowMs) && full))
            && (NoEviction(events) <==> !(SampleDue(s, snapshot, nowMs) && full))
  {
    var events := Sample(s, snapshot, nowMs).events;
    if SampleDue(s, snapshot, nowMs) && |s.buffer| >= OfflineBuffer.OB_CAPACITY {
      assert events[0].Evicted?;
    }
  }

  lemma LiveLossless(s: Uplink, snapshot: Option<TelemetryData>, port: Port)
    ensures Lossless(SendLive(s, snapshot, port).events) && NoEviction(SendLive(s, snapshot, port).events)
  {
  }

  /** The guards decide, before the pass, what its events will show. */
  lemma PassLossless(s: Uplink, i: LoopInput)
    ensures Lossless(Iterate(s, i).events) <==> !Overflows(s, i) && !DropsUnsent(s, i)
    ensures NoEviction(Iterate(s, i).events) <==> !Overflows(s, i)
  {
    hide Lossless, NoEviction, Checked, ReplayBurst, Sample, SendLive, IsTxTick, SampleDue, BurstDrops;
    var c := Checked(s, i);
    var t := c.(lastTelemetryTick := i.tick);
    NoEvents();
    SampleLossless(t, i.snapshot, i.sampleMs);
    assert SampleDue(t, i.snapshot, i.sampleMs) == SampleDue(c, i.snapshot, i.sampleMs) by {
      DueIgnoresTick(c, i);
    }
    BurstLossless(t, i.burst);
    var replayed := ReplayBurst(t, i.burst);
    LiveLossless(replayed.state, i.snapshot, i.live);
    LosslessConcat(replayed.events, SendLive(replayed.state, i.snapshot, i.live).events);
  }

  lemma DueIgnoresTick(c: Uplink, i: LoopInput)
    ensures SampleDue(c.(lastTelemetryTick := i.tick), i.snapshot, i.sampleMs) == SampleDue(c, i.snapshot, i.sampleMs)
  {
  }

  // ------------------------------------------------------------------
  // Whole runs
  // ------------------------------------------------------------------

  /** Over any run nothing is lost iff no pass meets either guard, and nothing evicted iff none overflows. */
  lemma {:induction false} LosslessIffSafe(s: Uplink, inputs: seq<LoopInput>)
    ensures Lossless(Run(s, inputs).events) <==> Safe(s, inputs)
    ensures NoEviction(Run(s, inputs).events) <==> NeverOverflows(s, inputs)
    decreases |inputs|
  {
    hide Iterate, Overflows, DropsUnsent, Lossless, NoEviction;
    NoEvents();
    if inputs != [] {
      var first := Iterate(s, inputs[0]);
      PassLossless(s, inputs[0]);
      LosslessIffSafe(first.state, inputs[1..]);
      LosslessConcat(first.events, Run(first.state, inputs[1..]).events);
    }
  }

  predicate Replays(e: UplinkEvent) {
    e.Sent? && e.replay
  }

  /** Samples handed to sendStatus, whether or not the write succeeded. */
  function HandedOf(events: seq<UplinkEvent>): seq<TelemetryData> {
    DataOf(Select(events, Replays))
  }

  lemma HandedOfConcat(a: seq<UplinkEvent>, b: seq<UplinkEvent>)
    ensures HandedOf(a + b) == HandedOf(a) + HandedOf(b)
  {
    SelectConcat(a, b, Replays);
    DataOfConcat(Select(a, Replays), Select(b, Replays));
  }

  lemma HandedOfOne(e: UplinkEvent)
    ensures HandedOf([e]) == if Replays(e) then [e.d] else []
    ensures HandedOf([]) == []
  {
    SelectOne(e, Replays);
  }

  lemma {:induction false} HandedCount(events: seq<UplinkEvent>)
    ensures |HandedOf(events)| <= |RemovedOf(events)|
    ensures NoEviction(events) ==> HandedOf(events) == RemovedOf(events)
    ensures !NoEviction(events) ==> |HandedOf(events)| < |RemovedOf(events)|
  {
    hide NoEviction, HandedOf, RemovedOf;
    NoEvents();
    if events == [] {
      HandedOfOne(Evicted(ZERO_TELEMETRY));
    } else {
      var e, rest := events[0], events[1..];
      HandedCount(rest);
      OneEvent(e);
      HandedOfOne(e);
      LosslessOne(e);
      HandedOfConcat([e], rest);
      ProjectionsOfConcat([e], rest);
      LosslessConcat([e], rest);
      assert events == [e] + rest;
    }
  }

  lemma SamePart<T>(r: seq<T>, p: seq<T>, z: seq<T>)
    ensures r + z == p + z <==> r == p
  {
    if r + z == p + z {
      assert |r| == |p| && (r + z)[..|r|] == r && (p + z)[..|p|] == p;
    }
  }

  /**
   Hand-over, exactly. Over any run, with any number of outages, AUX busy and writes failing as they
   like, the first entries and the samples, in order, are those handed to sendStatus, each once, and
   those still waiting, if and only if no sample fell due on a full ring.
  */
  lemma HandedOverIffNoOverflow(s: Uplink, inputs: seq<LoopInput>)
    ensures var o := Run(s, inputs);
            s.buffer + SampledOf(o.events) == HandedOf(o.events) + o.state.buffer <==> NeverOverflows(s, inputs)
  {
    hide HandedOf, RemovedOf, SampledOf, NoEviction, Run;
    var o := Run(s, inputs);
    Conservation(s, inputs);
    HandedCount(o.events);
    LosslessIffSafe(s, inputs);
    SamePart(RemovedOf(o.events), HandedOf(o.events), o.state.buffer);
  }

  /**
   Delivery, exactly. Over any run the first entries and the samples, in order, are those that reached
   the wire, each once, and those still waiting, if and only if no sample fell due on a full ring and no
   replay met a failing write: the loop drops an entry even when its write fails.
  */
  lemma DeliveredIffSafe(s: Uplink, inputs: seq<LoopInput>)
    ensures var o := Run(s, inputs);
            s.buffer + SampledOf(o.events) == DeliveredOf(o.events) + o.state.buffer <==> Safe(s, inputs)
  {
    hide DeliveredOf, RemovedOf, SampledOf, Lossless, Run;
    var o := Run(s, inputs);
    Conservation(s, inputs);
    DeliveryCount(o.events);
    LosslessIffSafe(s, inputs);
    SamePart(RemovedOf(o.events), DeliveredOf(o.events), o.state.buffer);
  }

  // ------------------------------------------------------------------
  // The losing input
  // ------------------------------------------------------------------

  /** No heartbeat for five seconds after boot: the link goes down and the snapshot is sampled. */
  function OutagePass(d: TelemetryData): LoopInput {
    LoopInput([], 5001, 20, Some(d), [], Port(true, 0), 5001)
  }

  /** The heartbeat returns, and the replay of the sample meets a failing write. */
  function FailingPass(d: TelemetryData): LoopInput {
    LoopInput([(UKS_HEARTBEAT_BYTE, 6000)], 6000, 40, Some(d), [Port(true, -1)], Port(true, 0), 6000)
  }

  lemma OutageSamples(d: TelemetryData)
    ensures Iterate(Start(0), OutagePass(d)) ==
            Outcome(Uplink(true, 0, 0, 20, 5001, true, [d], 0), [Sampled(d, 5001)])
  {
    assert Sub64(5001, 0) == 5001 && Sub32(20, 0) == 20;
    assert OfflineBuffer.Pushed([], d) == [d];
  }

  lemma FailureDrops(d: TelemetryData)
    ensures Iterate(Uplink(true, 0, 0, 20, 5001, true, [d], 0), FailingPass(d)) ==
            Outcome(Uplink(false, 6000, 0, 40, 5001, true, [], 1), [Sent(true, d, 0, false), Sent(false, d, 0, true)])
  {
    var s := Uplink(true, 0, 0, 20, 5001, true, [d], 0);
    var i := FailingPass(d);
    assert i.rx[1..] == [] && Receive(s, i.rx) == s.(lastHeartbeatMs := 6000);
    assert Sub64(6000, 6000) == 0;
    assert Checked(s, i) == s.(linkDown := false, lastHeartbeatMs := 6000);
    assert i.burst[1..] == [] && [d][1..] == [];
    assert Sub32(40, 20) == 20;
  }

  /** From boot: the only sample of an outage is dropped with its failed write, and never reaches the wire. */
  lemma FailedReplayIsLost(d: TelemetryData)
    ensures var inputs := [OutagePass(d), FailingPass(d)];
            var o := Run(Start(0), inputs);
            && SampledOf(o.events) == [d] && DeliveredOf(o.events) == [] && o.state.buffer == []
            && HandedOf(o.events) == [d] && LiveOf(o.events) == [d]
            && NeverOverflows(Start(0), inputs) && !Safe(Start(0), inputs)
  {
    hide Iterate, SampledOf, DeliveredOf, HandedOf, LiveOf, Start, OutagePass, FailingPass, Safe, NeverOverflows;
    var inputs := [OutagePass(d), FailingPass(d)];
    OutageSamples(d);
    FailureDrops(d);
    assert inputs == [OutagePass(d)] + [FailingPass(d)];
    RunOne(Start(0), OutagePass(d));
    RunConcat(Start(0), [OutagePass(d)], [FailingPass(d)]);
    var s1 := Iterate(Start(0), OutagePass(d)).state;
    RunOne(s1, FailingPass(d));
    var e0, e1, e2 := Sampled(d, 5001), Sent(true, d, 0, false), Sent(false, d, 0, true);
    var o := Run(Start(0), inputs);
    assert o.events == [e0] + ([e1] + [e2]);
    Projections(e0, [e1] + [e2]);
    Projections(e1, [e2]);
    Projections(e2, []);
    assert [e2] + [] == [e2];
    StartIsEmpty();
    HandedOverIffNoOverflow(Start(0), inputs);
    DeliveredIffSafe(Start(0), inputs);
  }

  lemma RunOne(s: Uplink, i: LoopInput)
    ensures Run(s, [i]) == Iterate(s, i)
  {
    hide Iterate;
    assert [i][1..] == [];
    assert Iterate(s, i).events + [] == Iterate(s, i).events;
  }

  lemma StartIsEmpty()
    ensures Start(0).buffer == []
  {
  }

  lemma Projections(e: UplinkEvent, rest: seq<UplinkEvent>)
    ensures SampledOf([e] + rest) == (if e.Sampled? then [e.d] else []) + SampledOf(rest)
    ensures DeliveredOf([e] + rest) == (if Delivers(e) then [e.d] else []) + DeliveredOf(rest)
    ensures LiveOf([e] + rest) == (if IsLive(e) then [e.d] else []) + LiveOf(rest)
    ensures HandedOf([e] + rest) == (if Replays(e) then [e.d] else []) + HandedOf(rest)
    ensures SampledOf([]) == DeliveredOf([]) == LiveOf([]) == HandedOf([]) == []
  {
    hide SampledOf, DeliveredOf, HandedOf, LiveOf, RemovedOf, WireSeqOf;
    NoEvents();
    OneEvent(e);
    HandedOfOne(e);
    ProjectionsOfConcat([e], rest);
    HandedOfConcat([e], rest);
  }

  // ------------------------------------------------------------------
  // Capacity
  // ------------------------------------------------------------------

  /** A pass that overflows takes a sample, and no pass holds more than it started with and sampled. */
  lemma PassRoom(s: Uplink, i: LoopInput)
    ensures var o := Iterate(s, i);
            && |o.state.buffer| <= |s.buffer| + |SampledOf(o.events)|
            && (Overflows(s, i) ==> |s.buffer| + |SampledOf(o.events)| > OfflineBuffer.OB_CAPACITY)
  {
    hide SampledOf, RemovedOf, Sample, ReplayBurst;
    var o := Iterate(s, i);
    PassAccounts(s, i);
    assert |s.buffer + SampledOf(o.events)| == |RemovedOf(o.events) + o.state.buffer|;
    if Overflows(s, i) {
      PassKeeps(s, i);
      var t := Checked(s, i).(lastTelemetryTick := i.tick);
      SampleShape(t, i.snapshot, i.sampleMs);
      SampleDueSamples(t, i.snapshot, i.sampleMs);
    }
  }

  lemma SampleDueSamples(s: Uplink, snapshot: Option<TelemetryData>, nowMs: uint64)
    ensures SampleDue(s, snapshot, nowMs) <==> Sample(s, snapshot, nowMs).events != []
  {
  }

  /** Any run that starts with and takes no more than 75 entries in all evicts none, whatever happens in it. */
  lemma {:induction false} WithinCapacity(s: Uplink, inputs: seq<LoopInput>)
    requires |s.buffer| + |SampledOf(Run(s, inputs).events)| <= OfflineBuffer.OB_CAPACITY
    ensures NeverOverflows(s, inputs)
    decreases |inputs|
  {
    hide Iterate, Overflows, SampledOf;
    if inputs != [] {
      var first := Iterate(s, inputs[0]);
      PassRoom(s, inputs[0]);
      ProjectionsOfConcat(first.events, Run(first.state, inputs[1..]).events);
      WithinCapacity(first.state, inputs[1..]);
    }
  }

  /** While the link is up nothing can overflow. */
  predicate LinkStaysUp(s: Uplink, inputs: seq<LoopInput>)
    decreases |inputs|
  {
    inputs == [] || (!Checked(s, inputs[0]).linkDown && LinkStaysUp(Iterate(s, inputs[0]).state, inputs[1..]))
  }

  lemma {:induction false} UpNeverOverflows(s: Uplink, inputs: seq<LoopInput>)
    requires LinkStaysUp(s, inputs)
    ensures NeverOverflows(s, inputs)
    decreases |inputs|
  {
    hide Iterate, Checked;
    if inputs != [] {
      UpNeverOverflows(Iterate(s, inputs[0]).state, inputs[1..]);
    }
  }

  lemma {:induction false} NeverOverflowsConcat(s: Uplink, a: seq<LoopInput>, b: seq<LoopInput>)
    ensures NeverOverflows(s, a + b) <==> NeverOverflows(s, a) && NeverOverflows(Run(s, a).state, b)
    decreases |a|
  {
    hide Iterate, Overflows;
    if a == [] {
      assert a + b == b;
    } else {
      assert (a + b)[1..] == a[1..] + b;
      NeverOverflowsConcat(Iterate(s, a[0]).state, a[1..], b);
    }
  }

  // ------------------------------------------------------------------
  // The outage promise
  // ------------------------------------------------------------------

  /** A blackout shorter than 75 s that starts with an empty ring fits into it. */
  lemma BlackoutFits(s: Uplink, outage: seq<LoopInput>, now: nat, end: nat)
    requires s.buffer == [] && !s.linkDown
    requires Blackout(s, outage, now, end) && end - now < 75_000
    ensures NeverOverflows(s, outage)
    ensures Run(s, outage).state.buffer == SampledOf(Run(s, outage).events)
    ensures DeliveredOf(Run(s, outage).events) == []
  {
    hide Iterate, Checked, SampledOf, DeliveredOf;
    BlackoutSampleCount(s, outage, now, end);
    BlackoutWithinCapacity(s, outage, now, end);
    WithinCapacity(s, outage);
  }

  /**
   The outage promise. After a blackout shorter than 75 s that found the ring empty, any run at all in
   which the ring does not overflow again (with the link up it cannot), AUX busy and writes failing as
   they like, hands every sample to sendStatus once and in order, or still holds it.
  */
  lemma BlackoutLosesNothing(s: Uplink, outage: seq<LoopInput>, after: seq<LoopInput>, now: nat, end: nat)
    requires s.buffer == [] && !s.linkDown
    requires Blackout(s, outage, now, end) && end - now < 75_000
    ensures var o := Run(s, outage + after);
            && (LinkStaysUp(Run(s, outage).state, after) ==> NeverOverflows(Run(s, outage).state, after))
            && (SampledOf(o.events) == HandedOf(o.events) + o.state.buffer <==>
                NeverOverflows(Run(s, outage).state, after))
  {
    hide Run, SampledOf, HandedOf, Blackout, NeverOverflows, LinkStaysUp;
    BlackoutFits(s, outage, now, end);
    NeverOverflowsConcat(s, outage, after);
    HandedOverIffNoOverflow(s, outage + after);
    assert [] + SampledOf(Run(s, outage + after).events) == SampledOf(Run(s, outage + after).events);
    if LinkStaysUp(Run(s, outage).state, after) {
      UpNeverOverflows(Run(s, outage).state, after);
    }
  }

  /**
   With AUX ready and writes succeeding the pace is known: after k good ticks the wire has carried
   exactly the k oldest samples of the outage, the others wait, and every tick carried a live record
   too; so once there were as many ticks as samples, all have arrived and the ring is empty.
  */
  lemma RecoveryDeliversOldest(s: Uplink, outage: seq<LoopInput>, recovery: seq<LoopInput>, now: nat, end: nat)
    requires s.buffer == [] && !s.linkDown
    requires Blackout(s, outage, now, end) && end - now < 75_000
    requires Recovers(Run(s, outage).state, recovery)
    ensures var o, samples := Run(s, outage + recovery), SampledOf(Run(s, outage).events);
            var k := TickCount(Run(s, outage).state, recovery);
            && SampledOf(o.events) == samples
            && DeliveredOf(o.events) == Oldest(samples, k)
            && o.state.buffer == Newer(samples, k)
            && |LiveOf(Run(Run(s, outage).state, recovery).events)| == k
            && (k >= |samples| ==> DeliveredOf(o.events) == samples && o.state.buffer == [])
  {
    hide Run, SampledOf, DeliveredOf, LiveOf, Blackout, Recovers, TickCount;
    var first := Run(s, outage);
    BlackoutFits(s, outage, now, end);
    Drain(first.state, recovery);
    RunConcat(s, outage, recovery);
    ProjectionsOfConcat(first.events, Run(first.state, recovery).events);
  }
}
