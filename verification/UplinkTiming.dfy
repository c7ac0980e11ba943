/**
Time and load on the uplink: the link flag is a function of the clock, coverage
has no long gap, replays never run ahead of the live record, and a tick never
writes more than the radio's serial line can take.
*/
module UplinkTiming {
  import opened Words
  import opened Wrappers
  import opened TelemetryModel
  import opened Telemetry
  import opened LinkMonitor
  import opened LoraTask
  import opened UplinkRuns
  import OfflineBuffer

  // ------------------------------------------------------------------
  // The link flag
  // ------------------------------------------------------------------

  /** The stamp of the newest heartbeat among the received bytes, after an earlier one. */
  function NewestHeartbeat(earlier: Option<nat>, rx: seq<(uint8, uint64)>): Option<nat>
    decreases |rx|
  {
    if rx == [] then earlier
    else NewestHeartbeat(if rx[0].0 == UKS_HEARTBEAT_BYTE then Some(rx[0].1) else earlier, rx[1..])
  }

  /** Down: no heartbeat 5 s after boot, or none for more than 3 s. No memory of earlier decisions. */
  predicate StatelessDown(nowMs: nat, bootMs: nat, heartbeat: Option<nat>) {
    match heartbeat
    case None => nowMs - bootMs > 5000
    case Some(at) => nowMs - at > 3000
  }

  /** The clock never runs backwards, from `now` over the stamps of the bytes to `end`, and is positive. */
  ghost predicate Ordered(rx: seq<(uint8, uint64)>, now: nat, end: nat) {
    && now <= end
    && (forall k :: 0 <= k < |rx| ==> now <= rx[k].1 <= end && 0 < rx[k].1)
    && (forall j, k :: 0 <= j < k < |rx| ==> rx[j].1 <= rx[k].1)
  }

  /** What the loop knows at time `now`, the last heartbeat having come at `heartbeat`. */
  ghost predicate Tracks(s: Uplink, heartbeat: Option<nat>, now: nat) {
    && s.bootMs <= now < TWO_64
    && s.lastHeartbeatMs == (if heartbeat.Some? then heartbeat.value else 0)
    && (heartbeat.Some? ==> 0 < heartbeat.value <= now)
    && (s.linkDown && heartbeat.None? ==> now - s.bootMs > 5000)
  }

  lemma {:induction false} ReceiveTracks(s: Uplink, rx: seq<(uint8, uint64)>, heartbeat: Option<nat>,
                                         now: nat, end: nat)
    requires Tracks(s, heartbeat, now) && Ordered(rx, now, end) && end < TWO_64
    ensures Tracks(Receive(s, rx), NewestHeartbeat(heartbeat, rx), end)
    decreases |rx|
  {
    if rx != [] {
      var beat := rx[0].0 == UKS_HEARTBEAT_BYTE;
      var s' := if beat then s.(lastHeartbeatMs := rx[0].1) else s;
      ReceiveTracks(s', rx[1..], if beat then Some(rx[0].1) else heartbeat, rx[0].1, end);
    }
  }

  /**
   After every link check the flag says exactly what the clock and the last heartbeat say, whatever
   it said before: the extra guard on an upward transition never blocks one.
  */
  lemma LinkFlagIsStateless(s: Uplink, i: LoopInput, heartbeat: Option<nat>, now: nat)
    requires Tracks(s, heartbeat, now)
    requires Ordered(i.rx, now, i.linkMs)
    ensures Checked(s, i).linkDown <==> StatelessDown(i.linkMs, s.bootMs, NewestHeartbeat(heartbeat, i.rx))
    ensures Iterate(s, i).state.linkDown == Checked(s, i).linkDown
    ensures Tracks(Iterate(s, i).state, NewestHeartbeat(heartbeat, i.rx), i.linkMs)
  {
    hide Receive;
    ReceiveTracks(s, i.rx, heartbeat, now, i.linkMs);
    ReceiveKeeps(s, i.rx);
    var received := Receive(s, i.rx);
    CheckLinkTracks(received, i.linkMs, NewestHeartbeat(heartbeat, i.rx));
    TransmitKeepsLink(Checked(s, i).(lastTelemetryTick := i.tick), i);
  }

  /** A run whose clock readings are ordered, from `now` on. */
  ghost predicate OrderedRun(inputs: seq<LoopInput>, now: nat)
    decreases |inputs|
  {
    inputs == [] || (Ordered(inputs[0].rx, now, inputs[0].linkMs) && OrderedRun(inputs[1..], inputs[0].linkMs))
  }

  function HeartbeatAfter(heartbeat: Option<nat>, inputs: seq<LoopInput>): Option<nat>
    decreases |inputs|
  {
    if inputs == [] then heartbeat
    else HeartbeatAfter(NewestHeartbeat(heartbeat, inputs[0].rx), inputs[1..])
  }

  /**
   Over any run with an ordered clock, however often the link went down and came back, the flag is
   determined by the boot time, the last heartbeat of the whole history and the last check alone.
  */
  lemma {:induction false} LinkFlagOverRuns(s: Uplink, inputs: seq<LoopInput>, heartbeat: Option<nat>, now: nat)
    requires Tracks(s, heartbeat, now) && OrderedRun(inputs, now) && inputs != []
    ensures Run(s, inputs).state.linkDown <==>
            StatelessDown(inputs[|inputs| - 1].linkMs, s.bootMs, HeartbeatAfter(heartbeat, inputs))
    decreases |inputs|
  {
    hide Iterate, Checked, Tracks, StatelessDown, NewestHeartbeat;
    var i, first := inputs[0], Iterate(s, inputs[0]);
    LinkFlagIsStateless(s, i, heartbeat, now);
    BootIsFixed(s, i);
    if |inputs| > 1 {
      LinkFlagOverRuns(first.state, inputs[1..], NewestHeartbeat(heartbeat, i.rx), i.linkMs);
    } else {
      assert Run(first.state, inputs[1..]).state == first.state;
      assert HeartbeatAfter(heartbeat, inputs) == NewestHeartbeat(heartbeat, i.rx);
    }
  }

  lemma BootIsFixed(s: Uplink, i: LoopInput)
    ensures Iterate(s, i).state.bootMs == s.bootMs
  {
    hide Checked, Transmit;
    PassKeeps(s, i);
    TransmitKeepsLink(Checked(s, i).(lastTelemetryTick := i.tick), i);
  }

  lemma StartTracks(bootMs: uint64)
    ensures Tracks(Start(bootMs), None, bootMs)
  {
  }

  /** From boot: the flag of every run is that of its own clock readings and heartbeats. */
  lemma LinkFlagFromStart(bootMs: uint64, inputs: seq<LoopInput>)
    requires OrderedRun(inputs, bootMs) && inputs != []
    ensures Run(Start(bootMs), inputs).state.linkDown <==>
            StatelessDown(inputs[|inputs| - 1].linkMs, bootMs, HeartbeatAfter(None, inputs))
  {
    hide Run, Tracks, StatelessDown, OrderedRun;
    StartTracks(bootMs);
    LinkFlagOverRuns(Start(bootMs), inputs, None, bootMs);
  }

  lemma CheckLinkTracks(s: Uplink, now: uint64, heartbeat: Option<nat>)
    requires Tracks(s, heartbeat, now)
    ensures CheckLink(s, now).linkDown <==> StatelessDown(now, s.bootMs, heartbeat)
    ensures Tracks(CheckLink(s, now), heartbeat, now)
  {
    assert Sub64(now, s.lastHeartbeatMs) == now - s.lastHeartbeatMs;
    assert Sub64(now, s.bootMs) == now - s.bootMs;
  }

  lemma {:induction false} BurstKeepsLink(s: Uplink, ports: seq<Port>)
    ensures ReplayBurst(s, ports).state
         == s.(buffer := ReplayBurst(s, ports).state.buffer, seqCounter := ReplayBurst(s, ports).state.seqCounter)
    decreases |ports|
  {
    if ports != [] && s.buffer != [] && ports[0].auxReady {
      BurstKeepsLink(Send(s, true, s.buffer[0], ports[0]).state.(buffer := s.buffer[1..]), ports[1..]);
    }
  }

  lemma TransmitKeepsLink(s: Uplink, i: LoopInput)
    ensures var t := Transmit(s, i).state;
            t.linkDown == s.linkDown && t.lastHeartbeatMs == s.lastHeartbeatMs && t.bootMs == s.bootMs
  {
    hide ReplayBurst;
    BurstKeepsLink(s, i.burst);
  }

  // ------------------------------------------------------------------
  // Coverage
  // ------------------------------------------------------------------

  /** A tick covers its moment if it puts a live record on the wire or a sample in the ring. */
  predicate Covers(events: seq<UplinkEvent>) {
    LiveOf(events) != [] || SampledOf(events) != []
  }

  /** The transmission ticks of a run: when each happened and whether it covered that moment. */
  function TickLog(s: Uplink, inputs: seq<LoopInput>): seq<(nat, bool)>
    decreases |inputs|
  {
    if inputs == [] then []
    else
      var first := Iterate(s, inputs[0]);
      (if IsTxTick(Checked(s, inputs[0]), inputs[0].tick) then [(inputs[0].sampleMs, Covers(first.events))] else [])
      + TickLog(first.state, inputs[1..])
  }

  /** Telemetry is available, AUX is ready, writes succeed, and ticks are at most delta apart. */
  ghost predicate Steady(s: Uplink, inputs: seq<LoopInput>, lastTick: nat, delta: nat)
    decreases |inputs|
  {
    inputs == [] ||
    (var i := inputs[0];
     var ticks := IsTxTick(Checked(s, i), i.tick);
     && (ticks ==> i.snapshot.Some? && CanWrite(i.live) && lastTick <= i.sampleMs <= lastTick + delta)
     && Steady(Iterate(s, i).state, inputs[1..], if ticks then i.sampleMs else lastTick, delta))
  }

  /** Every tick of the log lies less than `bound` after the last covered moment. */
  predicate GapsBelow(log: seq<(nat, bool)>, lastCovered: nat, bound: nat) {
    log == [] ||
    (&& log[0].0 - lastCovered < bound
     && GapsBelow(log[1..], if log[0].1 then log[0].0 else lastCovered, bound))
  }

  /** The last covered moment is known to the sampler, and the last tick came soon after it. */
  ghost predicate Watches(s: Uplink, lastCovered: nat, lastTick: nat) {
    && lastCovered <= lastTick
    && lastTick - lastCovered < 1000
    && (LastSample(s).Some? ==> LastSample(s).value == lastCovered)
  }

  /** A live record is always sent when the link is up and the port is ready. */
  lemma UpTickCovers(s: Uplink, i: LoopInput)
    requires !s.linkDown && i.snapshot.Some? && CanWrite(i.live)
    ensures LiveOf(Transmit(s, i).events) != []
    ensures LastSample(Transmit(s, i).state) == None
  {
    hide ReplayBurst, LiveOf;
    var replayed := ReplayBurst(s, i.burst);
    var live := SendLive(replayed.state, i.snapshot, i.live);
    OneEvent(live.events[0]);
    ProjectionsOfConcat(replayed.events, live.events);
    TransmitKeepsLink(s, i);
  }

  lemma DownTickCovers(s: Uplink, i: LoopInput, lastCovered: nat, lastTick: nat)
    requires s.linkDown && i.snapshot.Some? && Watches(s, lastCovered, lastTick) && lastTick <= i.sampleMs
    ensures var o := Transmit(s, i);
            && (Covers(o.events) || i.sampleMs - lastCovered < 1000)
            && Watches(o.state, if Covers(o.events) then i.sampleMs else lastCovered, i.sampleMs)
  {
    SampleShape(s, i.snapshot, i.sampleMs);
  }

  lemma PassWatches(s: Uplink, i: LoopInput, lastCovered: nat, lastTick: nat, delta: nat)
    requires Watches(s, lastCovered, lastTick) && Steady(s, [i], lastTick, delta)
    ensures var o, ticks := Iterate(s, i), IsTxTick(Checked(s, i), i.tick);
            && (ticks ==> i.sampleMs - lastCovered < 1000 + delta)
            && Watches(o.state, if ticks && Covers(o.events) then i.sampleMs else lastCovered,
                       if ticks then i.sampleMs else lastTick)
  {
    hide Transmit, Receive, Covers;
    ReceiveKeeps(s, i.rx);
    var checked := Checked(s, i);
    assert Watches(checked, lastCovered, lastTick);
    if IsTxTick(checked, i.tick) {
      var t := checked.(lastTelemetryTick := i.tick);
      if t.linkDown {
        DownTickCovers(t, i, lastCovered, lastTick);
      } else {
        UpTickCovers(t, i);
        CoversIfLive(Transmit(t, i).events);
      }
    }
  }

  lemma CoversIfLive(events: seq<UplinkEvent>)
    requires LiveOf(events) != []
    ensures Covers(events)
  {
  }

  /**
   Coverage: across any number of link transitions, the moments covered by live records on the wire
   and by samples in the ring never lie 1000 + delta ms or more apart.
  */
  lemma {:induction false} CoverageHasNoLongGap(s: Uplink, inputs: seq<LoopInput>, lastCovered: nat, lastTick: nat,
                                                delta: nat)
    requires Watches(s, lastCovered, lastTick) && Steady(s, inputs, lastTick, delta)
    ensures GapsBelow(TickLog(s, inputs), lastCovered, 1000 + delta)
    decreases |inputs|
  {
    hide Iterate, Checked, Watches, Covers;
    if inputs != [] {
      var i := inputs[0];
      var o, ticks := Iterate(s, i), IsTxTick(Checked(s, i), i.tick);
      assert Steady(s, [i], lastTick, delta);
      PassWatches(s, i, lastCovered, lastTick, delta);
      var covered := if ticks && Covers(o.events) then i.sampleMs else lastCovered;
      CoverageHasNoLongGap(o.state, inputs[1..], covered, if ticks then i.sampleMs else lastTick, delta);
      if ticks {
        assert TickLog(s, inputs) == [(i.sampleMs, Covers(o.events))] + TickLog(o.state, inputs[1..]);
        assert TickLog(s, inputs)[1..] == TickLog(o.state, inputs[1..]);
      } else {
        assert TickLog(s, inputs) == TickLog(o.state, inputs[1..]);
      }
    }
  }

  // ------------------------------------------------------------------
  // Timestamps
  // ------------------------------------------------------------------

  ghost predicate NonDecreasing(ds: seq<TelemetryData>) {
    forall j, k :: 0 <= j < k < |ds| ==> ds[j].timestampMs <= ds[k].timestampMs
  }

  ghost predicate NoneAfter(ds: seq<TelemetryData>, ts: nat) {
    forall k :: 0 <= k < |ds| ==> ds[k].timestampMs <= ts
  }

  /** Snapshots carry nondecreasing timestamps, none before `ts`. */
  ghost predicate Stamped(inputs: seq<LoopInput>, ts: nat)
    decreases |inputs|
  {
    inputs == [] ||
    (match inputs[0].snapshot
     case None => Stamped(inputs[1..], ts)
     case Some(d) => ts <= d.timestampMs && Stamped(inputs[1..], d.timestampMs))
  }

  function LatestStamp(i: LoopInput, ts: nat): nat {
    if i.snapshot.Some? then i.snapshot.value.timestampMs else ts
  }

  ghost predicate QueueOrdered(s: Uplink, ts: nat) {
    NonDecreasing(s.buffer) && NoneAfter(s.buffer, ts)
  }

  lemma {:induction false} BurstTakesPrefix(s: Uplink, ports: seq<Port>)
    ensures var o := ReplayBurst(s, ports);
            && RemovedOf(o.events) + o.state.buffer == s.buffer
            && LiveOf(o.events) == []
    decreases |ports|
  {
    hide SampledOf, RemovedOf, LiveOf;
    NoEvents();
    BurstAccounts(s, ports);
    if ports != [] && s.buffer != [] && ports[0].auxReady {
      var sent := Send(s, true, s.buffer[0], ports[0]);
      var next := sent.state.(buffer := s.buffer[1..]);
      BurstTakesPrefix(next, ports[1..]);
      OneEvent(sent.events[0]);
      ProjectionsOfConcat(sent.events, ReplayBurst(next, ports[1..]).events);
    }
  }

  ghost predicate AllStamped(ds: seq<TelemetryData>, ts: nat) {
    forall k :: 0 <= k < |ds| ==> ds[k].timestampMs == ts
  }

  /** The queue stays ordered; what leaves it is no newer than `ts`, what is sent live or sampled is stamped `now`. */
  ghost predicate KeepsOrder(o: Outcome, ts: nat, now: nat) {
    && QueueOrdered(o.state, now)
    && NoneAfter(RemovedOf(o.events), ts)
    && AllStamped(LiveOf(o.events), now)
    && AllStamped(SampledOf(o.events), now)
  }

  lemma DownTickOrder(s: Uplink, i: LoopInput, ts: nat)
    requires s.linkDown && QueueOrdered(s, ts) && ts <= LatestStamp(i, ts)
    ensures KeepsOrder(Transmit(s, i), ts, LatestStamp(i, ts))
  {
    hide SampledOf, RemovedOf, LiveOf, OfflineBuffer.Pushed, OfflineBuffer.EvictedBy;
    NoEvents();
    SampleShape(s, i.snapshot, i.sampleMs);
    if i.snapshot.Some? {
      PushOrdered(s.buffer, i.snapshot.value, ts);
    }
  }

  lemma PushOrdered(queue: seq<TelemetryData>, d: TelemetryData, ts: nat)
    requires NonDecreasing(queue) && NoneAfter(queue, ts) && ts <= d.timestampMs
    ensures NonDecreasing(OfflineBuffer.Pushed(queue, d)) && NoneAfter(OfflineBuffer.Pushed(queue, d), d.timestampMs)
    ensures NoneAfter(OfflineBuffer.EvictedBy(queue), ts)
  {
  }

  lemma UpTickOrder(s: Uplink, i: LoopInput, ts: nat)
    requires !s.linkDown && QueueOrdered(s, ts) && ts <= LatestStamp(i, ts)
    ensures KeepsOrder(Transmit(s, i), ts, LatestStamp(i, ts))
  {
    hide SampledOf, RemovedOf, LiveOf, ReplayBurst;
    NoEvents();
    var replayed := ReplayBurst(s, i.burst);
    var live := SendLive(replayed.state, i.snapshot, i.live);
    BurstTakesPrefix(s, i.burst);
    BurstAccounts(s, i.burst);
    if live.events != [] {
      OneEvent(live.events[0]);
    }
    ProjectionsOfConcat(replayed.events, live.events);
    PartsOrdered(RemovedOf(replayed.events), replayed.state.buffer, ts);
  }

  /**
   One pass keeps the waiting samples in time order, and what it replays is never newer than what it
   sends live.
  */
  lemma ReplayNeverAheadOfLive(s: Uplink, i: LoopInput, ts: nat)
    requires QueueOrdered(s, ts) && ts <= LatestStamp(i, ts)
    ensures KeepsOrder(Iterate(s, i), ts, LatestStamp(i, ts))
  {
    hide Transmit, Checked, SampledOf, RemovedOf, LiveOf;
    NoEvents();
    PassKeeps(s, i);
    var t := Checked(s, i).(lastTelemetryTick := i.tick);
    if t.linkDown {
      DownTickOrder(t, i, ts);
    } else {
      UpTickOrder(t, i, ts);
    }
  }

  lemma PartsOrdered(a: seq<TelemetryData>, b: seq<TelemetryData>, ts: nat)
    requires NonDecreasing(a + b) && NoneAfter(a + b, ts)
    ensures NonDecreasing(a) && NonDecreasing(b) && NoneAfter(a, ts) && NoneAfter(b, ts)
  {
    var all := a + b;
    forall k | 0 <= k < |a| ensures a[k] == all[k] {
    }
    forall k | 0 <= k < |b| ensures b[k] == all[|a| + k] {
    }
  }

  lemma {:induction false} SamplesOrdered(s: Uplink, inputs: seq<LoopInput>, ts: nat)
    requires Stamped(inputs, ts)
    ensures NonDecreasing(SampledOf(Run(s, inputs).events))
    ensures forall k :: 0 <= k < |SampledOf(Run(s, inputs).events)| ==>
              ts <= SampledOf(Run(s, inputs).events)[k].timestampMs
    decreases |inputs|
  {
    hide Iterate, SampledOf;
    NoEvents();
    if inputs != [] {
      var i := inputs[0];
      var first := Iterate(s, i);
      var rest := Run(first.state, inputs[1..]);
      PassSample(s, i);
      SamplesOrdered(first.state, inputs[1..], LatestStamp(i, ts));
      ProjectionsOfConcat(first.events, rest.events);
    }
  }

  lemma PassSample(s: Uplink, i: LoopInput)
    ensures SampledOf(Iterate(s, i).events) == [] ||
            (i.snapshot.Some? && SampledOf(Iterate(s, i).events) == [i.snapshot.value])
  {
    hide SampledOf, Receive, ReplayBurst;
    NoEvents();
    var t := Checked(s, i).(lastTelemetryTick := i.tick);
    if t.linkDown {
      SampleShape(t, i.snapshot, i.sampleMs);
    } else {
      var replayed := ReplayBurst(t, i.burst);
      var live := SendLive(replayed.state, i.snapshot, i.live);
      BurstAccounts(t, i.burst);
      if live.events != [] {
        OneEvent(live.events[0]);
      }
      ProjectionsOfConcat(replayed.events, live.events);
    }
  }

  /** Over any run everything taken out of the ring leaves in time order. */
  lemma RemovedInTimeOrder(s: Uplink, inputs: seq<LoopInput>, ts: nat)
    requires QueueOrdered(s, ts) && Stamped(inputs, ts)
    ensures NonDecreasing(RemovedOf(Run(s, inputs).events))
  {
    hide SampledOf, RemovedOf, Run;
    var o := Run(s, inputs);
    SamplesOrdered(s, inputs, ts);
    Conservation(s, inputs);
    var all := s.buffer + SampledOf(o.events);
    assert NonDecreasing(all);
    forall k | 0 <= k < |RemovedOf(o.events)| ensures RemovedOf(o.events)[k] == all[k] {
      assert (RemovedOf(o.events) + o.state.buffer)[k] == RemovedOf(o.events)[k];
    }
  }

  // ------------------------------------------------------------------
  // Load
  // ------------------------------------------------------------------

  function TotalBytes(lines: seq<string>): nat {
    if lines == [] then 0 else |lines[0]| + TotalBytes(lines[1..])
  }

  ghost predicate AllFromCan(ds: seq<TelemetryData>) {
    forall k :: 0 <= k < |ds| ==> FromCan(ds[k])
  }

  /** A pass hands the UART at most two lines and 176 bytes, of the 192 that 9600 baud moves in a tick period. */
  lemma PassLoad(s: Uplink, i: LoopInput)
    requires AllFromCan(s.buffer) && (i.snapshot.Some? ==> FromCan(i.snapshot.value))
    requires |i.burst| == REPLAY_BURST_PER_TICK
    ensures |LinesOf(Iterate(s, i).events)| <= 2
    ensures TotalBytes(LinesOf(Iterate(s, i).events)) <= 176
    ensures AllFromCan(Iterate(s, i).state.buffer)
  {
    hide Receive, StatusLine, SanitizeForUplink, FromCan;
    PassKeeps(s, i);
    var t := Checked(s, i).(lastTelemetryTick := i.tick);
    if IsTxTick(Checked(s, i), i.tick) {
      if t.linkDown {
        SamplesAreNotSent(t, i.snapshot, i.sampleMs);
      } else {
        UpTickLoad(t, i);
      }
    }
  }

  lemma OneLine(e: UplinkEvent)
    requires e.Sent? && FromCan(e.d)
    ensures LinesOf([e]) == [LineOf(e)]
    ensures TotalBytes([LineOf(e)]) <= 88
  {
    assert [e][1..] == [];
    assert [LineOf(e)][1..] == [];
    CanStatusLineFits(e.seqNo, e.d);
  }

  lemma UpTickLoad(s: Uplink, i: LoopInput)
    requires !s.linkDown && |i.burst| == REPLAY_BURST_PER_TICK
    requires AllFromCan(s.buffer) && (i.snapshot.Some? ==> FromCan(i.snapshot.value))
    ensures |LinesOf(Transmit(s, i).events)| <= 2
    ensures TotalBytes(LinesOf(Transmit(s, i).events)) <= 176
    ensures AllFromCan(Transmit(s, i).state.buffer)
  {
    hide StatusLine, SanitizeForUplink, FromCan;
    var replayed := ReplayBurst(s, i.burst);
    var live := SendLive(replayed.state, i.snapshot, i.live);
    LinesOfConcat(replayed.events, live.events);
    if replayed.events != [] {
      var sent := Send(s, true, s.buffer[0], i.burst[0]);
      assert ReplayBurst(sent.state.(buffer := s.buffer[1..]), i.burst[1..]).events == [];
      assert replayed.events == [Sent(true, s.buffer[0], s.seqCounter, i.burst[0].uartResult >= 0)];
      OneLine(replayed.events[0]);
    }
    if live.events != [] {
      OneLine(live.events[0]);
    }
    BytesOfConcat(LinesOf(replayed.events), LinesOf(live.events));
  }

  lemma {:induction false} BytesOfConcat(a: seq<string>, b: seq<string>)
    ensures TotalBytes(a + b) == TotalBytes(a) + TotalBytes(b)
  {
    if a == [] {
      assert a + b == b;
    } else {
      BytesOfConcat(a[1..], b);
      assert (a + b)[1..] == a[1..] + b;
    }
  }
}
