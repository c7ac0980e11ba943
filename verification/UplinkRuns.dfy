/**
What the uplink loop guarantees over whole runs: no sample is duplicated or
reordered, sequence numbers follow the wire, a backlog drains at one entry a
tick, coverage has no long gap, and the link flag is a function of the clock.
*/
module UplinkRuns {
  import opened Words
  import opened Wrappers
  import opened TelemetryModel
  import opened LinkMonitor
  import opened LoraTask
  import OfflineBuffer

  // ------------------------------------------------------------------
  // Projections of an event list
  // ------------------------------------------------------------------

  function Select(events: seq<UplinkEvent>, keep: UplinkEvent -> bool): seq<UplinkEvent> {
    if events == [] then []
    else (if keep(events[0]) then [events[0]] else []) + Select(events[1..], keep)
  }

  function DataOf(events: seq<UplinkEvent>): seq<TelemetryData> {
    seq(|events|, k requires 0 <= k < |events| => events[k].d)
  }

  predicate Samples(e: UplinkEvent) {
    e.Sampled?
  }

  predicate TakesOut(e: UplinkEvent) {
    e.Evicted? || (e.Sent? && e.replay)
  }

  predicate Delivers(e: UplinkEvent) {
    e.Sent? && e.replay && e.written
  }

  predicate IsLive(e: UplinkEvent) {
    e.Sent? && !e.replay && e.written
  }

  predicate OnWire(e: UplinkEvent) {
    e.Sent? && e.written
  }

  /** Samples put into the ring, in order. */
  function SampledOf(events: seq<UplinkEvent>): seq<TelemetryData> {
    DataOf(Select(events, Samples))
  }

  /** Samples taken out of the ring, by eviction or by replay, in order. */
  function RemovedOf(events: seq<UplinkEvent>): seq<TelemetryData> {
    DataOf(Select(events, TakesOut))
  }

  /** Samples that reached the wire. */
  function DeliveredOf(events: seq<UplinkEvent>): seq<TelemetryData> {
    DataOf(Select(events, Delivers))
  }

  /** Live records that reached the wire. */
  function LiveOf(events: seq<UplinkEvent>): seq<TelemetryData> {
    DataOf(Select(events, IsLive))
  }

  /** Sequence numbers on the wire, replayed and live together. */
  function WireSeqOf(events: seq<UplinkEvent>): seq<uint32> {
    NumbersOf(Select(events, OnWire))
  }

  function NumbersOf(events: seq<UplinkEvent>): seq<uint32> {
    seq(|events|, k requires 0 <= k < |events| => if events[k].Sent? then events[k].seqNo else 0)
  }

  /** Neither evicted, nor dropped after a failed write. */
  predicate Lossless(events: seq<UplinkEvent>) {
    forall k :: 0 <= k < |events| && TakesOut(events[k]) ==> Delivers(events[k])
  }

  predicate NoEviction(events: seq<UplinkEvent>) {
    forall k :: 0 <= k < |events| ==> !events[k].Evicted?
  }

  lemma {:induction false} SelectConcat(a: seq<UplinkEvent>, b: seq<UplinkEvent>, keep: UplinkEvent -> bool)
    ensures Select(a + b, keep) == Select(a, keep) + Select(b, keep)
  {
    if a == [] {
      assert a + b == b;
    } else {
      SelectConcat(a[1..], b, keep);
      assert (a + b)[1..] == a[1..] + b;
      var head := if keep(a[0]) then [a[0]] else [];
      assert Select(a + b, keep) == head + Select(a[1..] + b, keep);
      assert head + (Select(a[1..], keep) + Select(b, keep)) == (head + Select(a[1..], keep)) + Select(b, keep);
    }
  }

  lemma DataOfConcat(a: seq<UplinkEvent>, b: seq<UplinkEvent>)
    ensures DataOf(a + b) == DataOf(a) + DataOf(b)
    ensures NumbersOf(a + b) == NumbersOf(a) + NumbersOf(b)
  {
  }

  lemma ProjectionsOfConcat(a: seq<UplinkEvent>, b: seq<UplinkEvent>)
    ensures SampledOf(a + b) == SampledOf(a) + SampledOf(b)
    ensures RemovedOf(a + b) == RemovedOf(a) + RemovedOf(b)
    ensures DeliveredOf(a + b) == DeliveredOf(a) + DeliveredOf(b)
    ensures WireSeqOf(a + b) == WireSeqOf(a) + WireSeqOf(b)
    ensures LiveOf(a + b) == LiveOf(a) + LiveOf(b)
  {
    hide Select, DataOf, NumbersOf;
    SelectConcat(a, b, Samples);
    DataOfConcat(Select(a, Samples), Select(b, Samples));
    SelectConcat(a, b, TakesOut);
    DataOfConcat(Select(a, TakesOut), Select(b, TakesOut));
    SelectConcat(a, b, Delivers);
    DataOfConcat(Select(a, Delivers), Select(b, Delivers));
    SelectConcat(a, b, OnWire);
    DataOfConcat(Select(a, OnWire), Select(b, OnWire));
    SelectConcat(a, b, IsLive);
    DataOfConcat(Select(a, IsLive), Select(b, IsLive));
  }

  lemma SelectOne(e: UplinkEvent, keep: UplinkEvent -> bool)
    ensures Select([e], keep) == if keep(e) then [e] else []
    ensures DataOf([e]) == [e.d]
    ensures NumbersOf([e]) == [if e.Sent? then e.seqNo else 0]
    ensures DataOf([]) == [] && NumbersOf([]) == []
  {
    assert [e][1..] == [];
  }

  lemma OneEvent(e: UplinkEvent)
    ensures SampledOf([e]) == if e.Sampled? then [e.d] else []
    ensures RemovedOf([e]) == if TakesOut(e) then [e.d] else []
    ensures DeliveredOf([e]) == if Delivers(e) then [e.d] else []
    ensures WireSeqOf([e]) == if e.Sent? && e.written then [e.seqNo] else []
    ensures LiveOf([e]) == if IsLive(e) then [e.d] else []
  {
    hide Select, DataOf, NumbersOf;
    SelectOne(e, Samples);
    SelectOne(e, TakesOut);
    SelectOne(e, Delivers);
    SelectOne(e, OnWire);
    SelectOne(e, IsLive);
  }

  lemma NoEvents()
    ensures SampledOf([]) == RemovedOf([]) == DeliveredOf([]) == LiveOf([]) == []
    ensures WireSeqOf([]) == []
    ensures Lossless([]) && NoEviction([])
  {
  }

  lemma LosslessUncons(e: UplinkEvent, rest: seq<UplinkEvent>)
    ensures Lossless([e] + rest) <==> (TakesOut(e) ==> Delivers(e)) && Lossless(rest)
  {
    var events := [e] + rest;
    if Lossless(events) {
      assert events[0] == e;
      forall k | 0 <= k < |rest| && TakesOut(rest[k]) ensures Delivers(rest[k]) {
        assert rest[k] == events[k + 1];
      }
    }
  }

  lemma PredicatesOfConcat(a: seq<UplinkEvent>, b: seq<UplinkEvent>)
    requires Lossless(a) && Lossless(b)
    ensures Lossless(a + b)
    ensures NoEviction(a) && NoEviction(b) ==> NoEviction(a + b)
  {
    forall k | 0 <= k < |a + b| && TakesOut((a + b)[k]) ensures Delivers((a + b)[k]) {
      if k < |a| {
        assert (a + b)[k] == a[k];
      } else {
        assert (a + b)[k] == b[k - |a|];
      }
    }
  }

  // ------------------------------------------------------------------
  // Conservation
  // ------------------------------------------------------------------

  /** Accounting of one list of events between two states. */
  ghost predicate Accounts(s: Uplink, o: Outcome) {
    s.buffer + SampledOf(o.events) == RemovedOf(o.events) + o.state.buffer
  }

  lemma ShiftThrough<T>(x: seq<T>, s1: seq<T>, r1: seq<T>, y: seq<T>, s2: seq<T>, r2: seq<T>, z: seq<T>)
    requires x + s1 == r1 + y && y + s2 == r2 + z
    ensures x + (s1 + s2) == (r1 + r2) + z
  {
    assert x + (s1 + s2) == (x + s1) + s2;
    assert (r1 + y) + s2 == r1 + (y + s2);
    assert r1 + (r2 + z) == (r1 + r2) + z;
  }

  lemma AccountsCompose(s: Uplink, a: Outcome, b: Outcome)
    requires Accounts(s, a) && Accounts(a.state, b)
    ensures Accounts(s, Outcome(b.state, a.events + b.events))
  {
    hide SampledOf, RemovedOf;
    ProjectionsOfConcat(a.events, b.events);
    ShiftThrough(s.buffer, SampledOf(a.events), RemovedOf(a.events), a.state.buffer,
                 SampledOf(b.events), RemovedOf(b.events), b.state.buffer);
  }

  lemma SendAccounts(s: Uplink, replay: bool, d: TelemetryData, port: Port)
    requires replay ==> s.buffer != [] && d == s.buffer[0]
    ensures var sent := Send(s, replay, d, port);
            Accounts(s, Outcome(if replay then sent.state.(buffer := s.buffer[1..]) else sent.state, sent.events))
    ensures SampledOf(Send(s, replay, d, port).events) == []
  {
    OneEvent(Send(s, replay, d, port).events[0]);
    if replay {
      assert s.buffer == [d] + s.buffer[1..];
    }
  }

  lemma {:induction false} BurstAccounts(s: Uplink, ports: seq<Port>)
    ensures Accounts(s, ReplayBurst(s, ports))
    ensures SampledOf(ReplayBurst(s, ports).events) == []
    decreases |ports|
  {
    hide SampledOf, RemovedOf;
    NoEvents();
    if ports != [] && s.buffer != [] && ports[0].auxReady {
      var sent := Send(s, true, s.buffer[0], ports[0]);
      var next := sent.state.(buffer := s.buffer[1..]);
      SendAccounts(s, true, s.buffer[0], ports[0]);
      BurstAccounts(next, ports[1..]);
      AccountsCompose(s, Outcome(next, sent.events), ReplayBurst(next, ports[1..]));
      ProjectionsOfConcat(sent.events, ReplayBurst(next, ports[1..]).events);
    }
  }

  lemma SampleAccounts(s: Uplink, snapshot: Option<TelemetryData>, nowMs: uint64)
    ensures Accounts(s, Sample(s, snapshot, nowMs))
  {
    hide SampledOf, RemovedOf, DeliveredOf, LiveOf, WireSeqOf;
    SampleShape(s, snapshot, nowMs);
  }

  lemma SampleShape(s: Uplink, snapshot: Option<TelemetryData>, nowMs: uint64)
    ensures var o := Sample(s, snapshot, nowMs);
            && SampledOf(o.events) == (if o.events == [] then [] else [snapshot.value])
            && RemovedOf(o.events) == (if o.events == [] then [] else OfflineBuffer.EvictedBy(s.buffer))
            && DeliveredOf(o.events) == LiveOf(o.events) == [] && WireSeqOf(o.events) == []
            && (|s.buffer| < OfflineBuffer.OB_CAPACITY ==> NoEviction(o.events) && Lossless(o.events))
  {
    var o := Sample(s, snapshot, nowMs);
    if o.events != [] {
      var sample := Sampled(snapshot.value, nowMs);
      OneEvent(sample);
      if |s.buffer| >= OfflineBuffer.OB_CAPACITY {
        OneEvent(Evicted(s.buffer[0]));
        ProjectionsOfConcat([Evicted(s.buffer[0])], [sample]);
        assert o.events == [Evicted(s.buffer[0])] + [sample];
      } else {
        assert o.events == [sample];
      }
    }
  }

  lemma TransmitAccounts(s: Uplink, i: LoopInput)
    ensures Accounts(s, Transmit(s, i))
  {
    hide SampledOf, RemovedOf, Sample, ReplayBurst;
    NoEvents();
    if s.linkDown {
      SampleAccounts(s, i.snapshot, i.sampleMs);
    } else {
      BurstAccounts(s, i.burst);
      var replayed := ReplayBurst(s, i.burst);
      if i.snapshot.Some? && i.live.auxReady {
        SendAccounts(replayed.state, false, i.snapshot.value, i.live);
      }
      AccountsCompose(s, replayed, SendLive(replayed.state, i.snapshot, i.live));
    }
  }

  lemma PassAccounts(s: Uplink, i: LoopInput)
    ensures Accounts(s, Iterate(s, i))
  {
    hide SampledOf, RemovedOf, Transmit, Checked;
    NoEvents();
    PassKeeps(s, i);
    TransmitAccounts(Checked(s, i).(lastTelemetryTick := i.tick), i);
  }

  /** Reception and the link check leave the ring and the counter alone. */
  lemma PassKeeps(s: Uplink, i: LoopInput)
    ensures Checked(s, i).buffer == s.buffer
    ensures Checked(s, i).seqCounter == s.seqCounter
    ensures Checked(s, i).lastTelemetryTick == s.lastTelemetryTick
    ensures Checked(s, i).bootMs == s.bootMs
  {
    ReceiveKeeps(s, i.rx);
  }

  lemma {:induction false} ReceiveKeeps(s: Uplink, rx: seq<(uint8, uint64)>)
    ensures Receive(s, rx) == s.(lastHeartbeatMs := Receive(s, rx).lastHeartbeatMs)
    decreases |rx|
  {
    if rx != [] {
      var s' := if rx[0].0 == UKS_HEARTBEAT_BYTE then s.(lastHeartbeatMs := rx[0].1) else s;
      ReceiveKeeps(s', rx[1..]);
    }
  }

  /**
   Conservation over any run, whatever the link, AUX, the UART and the queue do: the samples taken,
   in order, are those removed (evicted or handed to sendStatus), in order, then those still waiting.
  */
  lemma {:induction false} Conservation(s: Uplink, inputs: seq<LoopInput>)
    ensures s.buffer + SampledOf(Run(s, inputs).events)
         == RemovedOf(Run(s, inputs).events) + Run(s, inputs).state.buffer
    decreases |inputs|
  {
    hide Iterate, SampledOf, RemovedOf;
    NoEvents();
    if inputs != [] {
      var first := Iterate(s, inputs[0]);
      PassAccounts(s, inputs[0]);
      Conservation(first.state, inputs[1..]);
      var rest := Run(first.state, inputs[1..]);
      AccountsCompose(s, first, rest);
    }
  }

  lemma {:induction false} DeliveryCount(events: seq<UplinkEvent>)
    ensures |DeliveredOf(events)| <= |RemovedOf(events)|
    ensures Lossless(events) ==> DeliveredOf(events) == RemovedOf(events)
    ensures !Lossless(events) ==> |DeliveredOf(events)| < |RemovedOf(events)|
  {
    hide Lossless, DeliveredOf, RemovedOf;
    NoEvents();
    if events != [] {
      var e, rest := events[0], events[1..];
      DeliveryCount(rest);
      OneEvent(e);
      ProjectionsOfConcat([e], rest);
      LosslessUncons(e, rest);
      assert events == [e] + rest;
    }
  }

  // ------------------------------------------------------------------
  // Sequence numbers
  // ------------------------------------------------------------------

  /** Numbers counting up from n modulo 2^32. */
  ghost predicate CountsFrom(numbers: seq<uint32>, n: uint32) {
    forall k :: 0 <= k < |numbers| ==> numbers[k] == Wrap32(n + k)
  }

  ghost predicate Numbers(s: Uplink, o: Outcome) {
    && CountsFrom(WireSeqOf(o.events), s.seqCounter)
    && o.state.seqCounter == Wrap32(s.seqCounter + |WireSeqOf(o.events)|)
  }

  lemma NumbersCompose(s: Uplink, a: Outcome, b: Outcome)
    requires Numbers(s, a) && Numbers(a.state, b)
    ensures Numbers(s, Outcome(b.state, a.events + b.events))
  {
    ProjectionsOfConcat(a.events, b.events);
    CountsCompose(WireSeqOf(a.events), WireSeqOf(b.events), s.seqCounter);
  }

  lemma CountsCompose(a: seq<uint32>, b: seq<uint32>, n: uint32)
    requires CountsFrom(a, n) && CountsFrom(b, Wrap32(n + |a|))
    ensures CountsFrom(a + b, n)
    ensures Wrap32(Wrap32(n + |a|) + |b|) == Wrap32(n + |a + b|)
  {
    hide Wrap32;
    WrapAdd(n + |a|, |b|);
    forall k | 0 <= k < |a + b| ensures (a + b)[k] == Wrap32(n + k) {
      if k >= |a| {
        WrapAdd(n + |a|, k - |a|);
        assert b[k - |a|] == Wrap32(Wrap32(n + |a|) + (k - |a|));
      }
    }
  }

  lemma SendNumbers(s: Uplink, replay: bool, d: TelemetryData, port: Port)
    ensures Numbers(s, Send(s, replay, d, port))
  {
    hide WireSeqOf;
    var o := Send(s, replay, d, port);
    OneEvent(o.events[0]);
  }

  lemma {:induction false} BurstNumbers(s: Uplink, ports: seq<Port>)
    ensures Numbers(s, ReplayBurst(s, ports))
    decreases |ports|
  {
    if ports != [] && s.buffer != [] && ports[0].auxReady {
      var sent := Send(s, true, s.buffer[0], ports[0]);
      SendNumbers(s, true, s.buffer[0], ports[0]);
      var next := sent.state.(buffer := s.buffer[1..]);
      BurstNumbers(next, ports[1..]);
      NumbersCompose(s, Outcome(next, sent.events), ReplayBurst(next, ports[1..]));
    }
  }

  lemma PassNumbers(s: Uplink, i: LoopInput)
    ensures Numbers(s, Iterate(s, i))
  {
    PassKeeps(s, i);
    var checked := Checked(s, i).(lastTelemetryTick := i.tick);
    if IsTxTick(Checked(s, i), i.tick) {
      if checked.linkDown {
        SampleShape(checked, i.snapshot, i.sampleMs);
      } else {
        BurstNumbers(checked, i.burst);
        var replayed := ReplayBurst(checked, i.burst);
        if i.snapshot.Some? && i.live.auxReady {
          SendNumbers(replayed.state, false, i.snapshot.value, i.live);
        }
        NumbersCompose(checked, replayed, SendLive(replayed.state, i.snapshot, i.live));
      }
    }
  }

  /** Frames on the wire, live and replayed together, carry consecutive numbers in wire order. */
  lemma {:induction false} WireNumbersCount(s: Uplink, inputs: seq<LoopInput>)
    ensures CountsFrom(WireSeqOf(Run(s, inputs).events), s.seqCounter)
    ensures Run(s, inputs).state.seqCounter == Wrap32(s.seqCounter + |WireSeqOf(Run(s, inputs).events)|)
    decreases |inputs|
  {
    hide Iterate;
    if inputs != [] {
      var first := Iterate(s, inputs[0]);
      PassNumbers(s, inputs[0]);
      WireNumbersCount(first.state, inputs[1..]);
      NumbersCompose(s, first, Run(first.state, inputs[1..]));
    }
  }

  // ------------------------------------------------------------------
  // Draining
  // ------------------------------------------------------------------

  ghost predicate CanWrite(p: Port) {
    p.auxReady && p.uartResult >= 0
  }

  /** A transmission tick with the link up, AUX ready, writes succeeding and telemetry available. */
  ghost predicate GoodTick(s: Uplink, i: LoopInput) {
    && !Checked(s, i).linkDown
    && IsTxTick(Checked(s, i), i.tick)
    && |i.burst| == REPLAY_BURST_PER_TICK && CanWrite(i.burst[0])
    && CanWrite(i.live)
    && i.snapshot.Some?
  }

  /** A pass between ticks. */
  ghost predicate IdlePass(s: Uplink, i: LoopInput) {
    !Checked(s, i).linkDown && !IsTxTick(Checked(s, i), i.tick)
  }

  /** Every pass of the run is a good tick or lies between two ticks. */
  ghost predicate Recovers(s: Uplink, inputs: seq<LoopInput>)
    decreases |inputs|
  {
    inputs == [] ||
    ((GoodTick(s, inputs[0]) || IdlePass(s, inputs[0])) && Recovers(Iterate(s, inputs[0]).state, inputs[1..]))
  }

  ghost function TickCount(s: Uplink, inputs: seq<LoopInput>): nat
    decreases |inputs|
  {
    if inputs == [] then 0
    else (if GoodTick(s, inputs[0]) then 1 else 0) + TickCount(Iterate(s, inputs[0]).state, inputs[1..])
  }

  lemma GoodTickDrainsOne(s: Uplink, i: LoopInput)
    requires GoodTick(s, i)
    ensures var o := Iterate(s, i);
            && o.state.buffer == (if s.buffer == [] then [] else s.buffer[1..])
            && DeliveredOf(o.events) == (if s.buffer == [] then [] else [s.buffer[0]])
            && LiveOf(o.events) == [i.snapshot.value]
            && SampledOf(o.events) == []
            && Lossless(o.events)
  {
    PassKeeps(s, i);
    var checked := Checked(s, i).(lastTelemetryTick := i.tick);
    var replayed := ReplayBurst(checked, i.burst);
    var live := SendLive(replayed.state, i.snapshot, i.live);
    assert i.burst[1..] == [];
    OneReplay(checked, i.burst);
    assert live.events == [Sent(false, i.snapshot.value, replayed.state.seqCounter, true)];
    OneEvent(live.events[0]);
    ProjectionsOfConcat(replayed.events, live.events);
    PredicatesOfConcat(replayed.events, live.events);
    assert Iterate(s, i) == Outcome(live.state, replayed.events + live.events);
  }

  lemma OneReplay(s: Uplink, ports: seq<Port>)
    requires |ports| == REPLAY_BURST_PER_TICK && CanWrite(ports[0])
    ensures var o := ReplayBurst(s, ports);
            && o.state.buffer == (if s.buffer == [] then [] else s.buffer[1..])
            && DeliveredOf(o.events) == (if s.buffer == [] then [] else [s.buffer[0]])
            && LiveOf(o.events) == SampledOf(o.events) == []
            && Lossless(o.events)
  {
    if s.buffer != [] {
      var sent := Send(s, true, s.buffer[0], ports[0]);
      assert ReplayBurst(sent.state.(buffer := s.buffer[1..]), ports[1..]).events == [];
      assert ReplayBurst(s, ports).events == sent.events;
      OneEvent(sent.events[0]);
    }
  }

  lemma IdlePassDoesNothing(s: Uplink, i: LoopInput)
    requires IdlePass(s, i)
    ensures Iterate(s, i).events == [] && Iterate(s, i).state.buffer == s.buffer
  {
    PassKeeps(s, i);
  }

  /** The k oldest entries of a queue (all of them if there are fewer), and the others. */
  function Oldest(queue: seq<TelemetryData>, k: nat): seq<TelemetryData> {
    if k <= |queue| then queue[..k] else queue
  }

  function Newer(queue: seq<TelemetryData>, k: nat): seq<TelemetryData> {
    if k <= |queue| then queue[k..] else []
  }

  lemma OldestFirst(queue: seq<TelemetryData>, k: nat)
    ensures Oldest(queue, k + 1) == Oldest(queue, 1) + Oldest(Newer(queue, 1), k)
    ensures Newer(queue, k + 1) == Newer(Newer(queue, 1), k)
  {
  }

  ghost predicate Drains(s: Uplink, o: Outcome, k: nat) {
    && o.state.buffer == Newer(s.buffer, k)
    && DeliveredOf(o.events) == Oldest(s.buffer, k)
    && |LiveOf(o.events)| == k
    && SampledOf(o.events) == []
    && Lossless(o.events)
  }

  lemma DrainsCompose(s: Uplink, a: Outcome, b: Outcome, k: nat)
    requires (a.events == [] && a.state.buffer == s.buffer) || Drains(s, a, 1)
    requires Drains(a.state, b, k)
    ensures Drains(s, Outcome(b.state, a.events + b.events), if a.events == [] then k else k + 1)
  {
    hide SampledOf, DeliveredOf, LiveOf, Lossless, Oldest, Newer;
    NoEvents();
    if a.events == [] {
      assert a.events + b.events == b.events;
    } else {
      ProjectionsOfConcat(a.events, b.events);
      PredicatesOfConcat(a.events, b.events);
      OldestFirst(s.buffer, k);
    }
  }

  /**
   Draining: in a recovery with k good ticks a backlog loses exactly its k oldest entries (all of
   them if it has fewer), each on the wire; every tick also sends one live frame. So n ticks empty
   a backlog of n.
  */
  lemma {:induction false} Drain(s: Uplink, inputs: seq<LoopInput>)
    requires Recovers(s, inputs)
    ensures Drains(s, Run(s, inputs), TickCount(s, inputs))
    decreases |inputs|
  {
    hide Iterate, GoodTick, IdlePass;
    if inputs == [] {
      NoEvents();
    } else {
      var first := Iterate(s, inputs[0]);
      Drain(first.state, inputs[1..]);
      if GoodTick(s, inputs[0]) {
        GoodTickDrainsOne(s, inputs[0]);
        NoEvents();
      } else {
        IdlePassDoesNothing(s, inputs[0]);
      }
      DrainsCompose(s, first, Run(first.state, inputs[1..]), TickCount(first.state, inputs[1..]));
    }
  }

  // ------------------------------------------------------------------
  // Blackouts
  // ------------------------------------------------------------------

  /** The link is down at every pass, and the sampling clock runs from `now` to at most `end`. */
  ghost predicate Blackout(s: Uplink, inputs: seq<LoopInput>, now: nat, end: nat)
    decreases |inputs|
  {
    && now <= end
    && (inputs == [] ||
        (&& Checked(s, inputs[0]).linkDown
         && now <= inputs[0].sampleMs <= end
         && Blackout(Iterate(s, inputs[0]).state, inputs[1..], inputs[0].sampleMs, end)))
  }

  /** The time of the last sample of the present outage, if it has one. */
  function LastSample(s: Uplink): Option<uint64> {
    if s.linkDown && s.offlineHasSamples then Some(s.lastOfflineSampleMs) else None
  }

  /** One pass of a blackout takes at most one sample, a period after the last one. */
  lemma BlackoutPass(s: Uplink, i: LoopInput)
    requires Checked(s, i).linkDown
    ensures var o, n := Iterate(s, i), |SampledOf(Iterate(s, i).events)|;
            && n <= 1
            && LastSample(o.state) == (if n == 1 then Some(i.sampleMs) else LastSample(s))
            && (n == 1 && LastSample(s).Some? && LastSample(s).value <= i.sampleMs ==>
                  LastSample(s).value + 1000 <= i.sampleMs)
            && DeliveredOf(o.events) == []
            && (|s.buffer| + n <= OfflineBuffer.OB_CAPACITY ==>
                  NoEviction(o.events) && Lossless(o.events) && o.state.buffer == s.buffer + SampledOf(o.events))
  {
    PassKeeps(s, i);
    ReceiveKeeps(s, i.rx);
    var checked := Checked(s, i);
    assert LastSample(checked) == LastSample(s);
    if IsTxTick(checked, i.tick) {
      SampleShape(checked.(lastTelemetryTick := i.tick), i.snapshot, i.sampleMs);
    }
  }

  /** Samples of a blackout are at least a period apart, so its length bounds their number. */
  lemma {:induction false} BlackoutSampleCount(s: Uplink, inputs: seq<LoopInput>, now: nat, end: nat)
    requires Blackout(s, inputs, now, end)
    requires LastSample(s).Some? ==> LastSample(s).value <= now
    ensures var n := |SampledOf(Run(s, inputs).events)|;
            if LastSample(s).Some? then n * 1000 <= end - LastSample(s).value
            else n == 0 || (n - 1) * 1000 <= end - now
    decreases |inputs|
  {
    hide Iterate, Checked, LastSample;
    if inputs != [] {
      var first := Iterate(s, inputs[0]);
      BlackoutPass(s, inputs[0]);
      BlackoutSampleCount(first.state, inputs[1..], inputs[0].sampleMs, end);
      ProjectionsOfConcat(first.events, Run(first.state, inputs[1..]).events);
    }
  }

  /** Without a full ring nothing is evicted during a blackout. */
  lemma {:induction false} BlackoutWithinCapacity(s: Uplink, inputs: seq<LoopInput>, now: nat, end: nat)
    requires Blackout(s, inputs, now, end)
    requires |s.buffer| + |SampledOf(Run(s, inputs).events)| <= OfflineBuffer.OB_CAPACITY
    ensures NoEviction(Run(s, inputs).events) && Lossless(Run(s, inputs).events)
    ensures Run(s, inputs).state.buffer == s.buffer + SampledOf(Run(s, inputs).events)
    ensures DeliveredOf(Run(s, inputs).events) == []
    decreases |inputs|
  {
    hide Iterate, Checked, LastSample;
    if inputs != [] {
      var first := Iterate(s, inputs[0]);
      var rest := Run(first.state, inputs[1..]);
      BlackoutPass(s, inputs[0]);
      ProjectionsOfConcat(first.events, rest.events);
      BlackoutWithinCapacity(first.state, inputs[1..], inputs[0].sampleMs, end);
      PredicatesOfConcat(first.events, rest.events);
    }
  }

  lemma {:induction false} RunConcat(s: Uplink, a: seq<LoopInput>, b: seq<LoopInput>)
    ensures var first := Run(s, a);
            var second := Run(first.state, b);
            Run(s, a + b) == Outcome(second.state, first.events + second.events)
    decreases |a|
  {
    hide Iterate;
    if a == [] {
      assert a + b == b;
    } else {
      assert (a + b)[1..] == a[1..] + b;
      RunConcat(Iterate(s, a[0]).state, a[1..], b);
    }
  }
}
