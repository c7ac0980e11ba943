/**
The LoRa uplink loop of main.cpp: heartbeat reception, link flag, and the
transmission tick that either replays and sends live or samples into the ring.
*/
module LoraTask {
  import opened Words
  import opened Wrappers
  import opened TelemetryModel
  import opened Telemetry
  import opened LinkMonitor
  import OfflineBuffer

  const REPLAY_BURST_PER_TICK: nat := 1

  /** AUX level at the moment it is read, and what the UART driver answers if it is written. */
  datatype Port = Port(auxReady: bool, uartResult: int)

  /** Everything one pass of the loop reads from outside. */
  datatype LoopInput = LoopInput(
    rx: seq<(uint8, uint64)>,           // received bytes, each with the clock when handled
    linkMs: uint64,                     // clock at the link check
    tick: uint32,                       // FreeRTOS tick count
    snapshot: Option<TelemetryData>,    // the shared one-slot queue, peeked
    burst: seq<Port>,                   // one per replay attempt
    live: Port,
    sampleMs: uint64)                   // clock at the transmission tick

  datatype Uplink = Uplink(
    linkDown: bool,
    lastHeartbeatMs: uint64,
    bootMs: uint64,
    lastTelemetryTick: uint32,
    lastOfflineSampleMs: uint64,
    offlineHasSamples: bool,
    buffer: seq<TelemetryData>,
    seqCounter: uint32)

  /** Frames and samples, in the order the loop produces them. */
  datatype UplinkEvent =
    | Sampled(d: TelemetryData, atMs: uint64)
    | Evicted(d: TelemetryData)
    | Sent(replay: bool, d: TelemetryData, seqNo: uint32, written: bool)

  datatype Outcome = Outcome(state: Uplink, events: seq<UplinkEvent>)

  function Start(bootMs: uint64): Uplink {
    Uplink(false, 0, bootMs, 0, 0, false, [], 0)
  }

  function Receive(s: Uplink, rx: seq<(uint8, uint64)>): Uplink
    decreases |rx|
  {
    if rx == [] then s
    else
      var s' := if rx[0].0 == UKS_HEARTBEAT_BYTE then s.(lastHeartbeatMs := rx[0].1) else s;
      Receive(s', rx[1..])
  }

  function CheckLink(s: Uplink, nowMs: uint64): Uplink {
    var timedOut := LinkCheckTimeoutWithBootGrace(nowMs, s.lastHeartbeatMs, LINK_TIMEOUT_MS,
                                                  s.bootMs, BOOT_LINK_GRACE_MS);
    if timedOut && !s.linkDown then
      s.(linkDown := true, lastOfflineSampleMs := 0, offlineHasSamples := false)
    else if !timedOut && s.linkDown && s.lastHeartbeatMs != 0 then
      s.(linkDown := false)
    else s
  }

  predicate IsTxTick(s: Uplink, tick: uint32) {
    Sub32(tick, s.lastTelemetryTick) >= MsToTicks(LORA_TX_PERIOD_MS)
  }

  function Send(s: Uplink, replay: bool, d: TelemetryData, port: Port): Outcome {
    var written := port.uartResult >= 0;
    Outcome(if written then s.(seqCounter := Wrap32(s.seqCounter + 1)) else s,
            [Sent(replay, d, s.seqCounter, written)])
  }

  function ReplayBurst(s: Uplink, ports: seq<Port>): Outcome
    decreases |ports|
  {
    if ports == [] || s.buffer == [] || !ports[0].auxReady then Outcome(s, [])
    else
      var sent := Send(s, true, s.buffer[0], ports[0]);
      var rest := ReplayBurst(sent.state.(buffer := s.buffer[1..]), ports[1..]);
      Outcome(rest.state, sent.events + rest.events)
  }

  function SendLive(s: Uplink, snapshot: Option<TelemetryData>, port: Port): Outcome {
    if snapshot.Some? && port.auxReady then Send(s, false, snapshot.value, port) else Outcome(s, [])
  }

  function Sample(s: Uplink, snapshot: Option<TelemetryData>, nowMs: uint64): Outcome {
    if snapshot.Some? &&
       OfflineShouldSample(nowMs, s.lastOfflineSampleMs, s.offlineHasSamples, OFFLINE_SAMPLE_PERIOD_MS) then
      var d := snapshot.value;
      var evicted := OfflineBuffer.EvictedBy(s.buffer);
      Outcome(s.(lastOfflineSampleMs := nowMs, offlineHasSamples := true,
                 buffer := OfflineBuffer.Pushed(s.buffer, d)),
              (if evicted == [] then [] else [Evicted(evicted[0])]) + [Sampled(d, nowMs)])
    else Outcome(s, [])
  }

  function Transmit(s: Uplink, i: LoopInput): Outcome {
    if s.linkDown then Sample(s, i.snapshot, i.sampleMs)
    else
      var replayed := ReplayBurst(s, i.burst);
      var live := SendLive(replayed.state, i.snapshot, i.live);
      Outcome(live.state, replayed.events + live.events)
  }

  /** The state once this pass has received its bytes and checked the link. */
  function Checked(s: Uplink, i: LoopInput): Uplink {
    CheckLink(Receive(s, i.rx), i.linkMs)
  }

  /** One pass of the loop. */
  function Iterate(s: Uplink, i: LoopInput): Outcome {
    var checked := Checked(s, i);
    if IsTxTick(checked, i.tick) then Transmit(checked.(lastTelemetryTick := i.tick), i)
    else Outcome(checked, [])
  }

  function Run(s: Uplink, inputs: seq<LoopInput>): Outcome
    decreases |inputs|
  {
    if inputs == [] then Outcome(s, [])
    else
      var first := Iterate(s, inputs[0]);
      var rest := Run(first.state, inputs[1..]);
      Outcome(rest.state, first.events + rest.events)
  }

  /** The line of a frame event, as handed to the UART driver. */
  function LineOf(e: UplinkEvent): string
    requires e.Sent?
  {
    StatusLine(e.seqNo, SanitizeForUplink(e.d))
  }

  function LinesOf(events: seq<UplinkEvent>): seq<string> {
    if events == [] then []
    else (if events[0].Sent? then [LineOf(events[0])] else []) + LinesOf(events[1..])
  }

  lemma {:induction false} LinesOfConcat(a: seq<UplinkEvent>, b: seq<UplinkEvent>)
    ensures LinesOf(a + b) == LinesOf(a) + LinesOf(b)
  {
    hide LineOf;
    if a == [] {
      assert a + b == b;
    } else {
      LinesOfConcat(a[1..], b);
      assert (a + b)[1..] == a[1..] + b;
      var head := if a[0].Sent? then [LineOf(a[0])] else [];
      assert LinesOf(a + b) == head + LinesOf(a[1..] + b);
      assert head + (LinesOf(a[1..]) + LinesOf(b)) == (head + LinesOf(a[1..])) + LinesOf(b);
    }
  }

  lemma SamplesAreNotSent(s: Uplink, snapshot: Option<TelemetryData>, nowMs: uint64)
    ensures LinesOf(Sample(s, snapshot, nowMs).events) == []
  {
    var evicted := OfflineBuffer.EvictedBy(s.buffer);
    if snapshot.Some? && evicted != [] {
      LinesOfConcat([Evicted(evicted[0])], [Sampled(snapshot.value, nowMs)]);
    }
  }

  class Task {
    var linkDown: bool
    var lastHeartbeatMs: uint64
    const bootMs: uint64
    var lastTelemetryTick: uint32
    var lastOfflineSampleMs: uint64
    var offlineHasSamples: bool
    const ring: OfflineBuffer.Ring
    const sender: TelemetrySender

    ghost predicate Valid()
      reads this, ring, ring.buf, sender
    {
      ring.Valid() && sender.isInitialized
    }

    ghost function Value(): Uplink
      reads this, ring, sender
    {
      Uplink(linkDown, lastHeartbeatMs, bootMs, lastTelemetryTick, lastOfflineSampleMs,
             offlineHasSamples, ring.fifo, sender.sequenceCounter)
    }

    constructor (nowMs: uint64)
      ensures Valid() && Value() == Start(nowMs)
      ensures fresh(ring) && fresh(ring.buf) && fresh(sender)
    {
      linkDown, lastHeartbeatMs := false, 0;
      bootMs := nowMs;
      lastTelemetryTick, lastOfflineSampleMs, offlineHasSamples := 0, 0, false;
      var r := new OfflineBuffer.Ring();
      var t := new TelemetrySender();
      var ok := t.Begin();
      ring, sender := r, t;
    }

    /** One pass of the endless loop. `lines` is what was handed to the LoRa UART. */
    method Pass(i: LoopInput) returns (lines: seq<string>)
      requires Valid() && |i.burst| == REPLAY_BURST_PER_TICK
      modifies this, ring, ring.buf, sender
      ensures Valid()
      ensures Value() == Iterate(old(Value()), i).state
      ensures lines == LinesOf(Iterate(old(Value()), i).events)
    {
      lines := [];
      HandleRx(i.rx);
      UpdateLink(i.linkMs);
      if Sub32(i.tick, lastTelemetryTick) >= MsToTicks(LORA_TX_PERIOD_MS) {
        lastTelemetryTick := i.tick;
        ghost var checked := Value();
        if !linkDown {
          lines := SendReplaysAndLive(i);
        } else if i.snapshot.Some? {
          SamplesAreNotSent(checked, i.snapshot, i.sampleMs);
          TakeSample(i.snapshot.value, i.sampleMs);
        }
      }
    }

    method HandleRx(rx: seq<(uint8, uint64)>)
      modifies this`lastHeartbeatMs
      ensures Value() == Receive(old(Value()), rx)
    {
      for k := 0 to |rx|
        invariant Receive(old(Value()), rx) == Receive(Value(), rx[k..])
      {
        assert rx[k..][1..] == rx[k + 1..];
        if rx[k].0 == UKS_HEARTBEAT_BYTE {
          lastHeartbeatMs := rx[k].1;
        }
      }
    }

    method UpdateLink(nowMs: uint64)
      modifies this`linkDown, this`lastOfflineSampleMs, this`offlineHasSamples
      ensures Value() == CheckLink(old(Value()), nowMs)
    {
      var timedOut := LinkCheckTimeoutWithBootGrace(nowMs, lastHeartbeatMs, LINK_TIMEOUT_MS,
                                                    bootMs, BOOT_LINK_GRACE_MS);
      if timedOut && !linkDown {
        linkDown := true;
        lastOfflineSampleMs := 0;
        offlineHasSamples := false;
      } else if !timedOut && linkDown && lastHeartbeatMs != 0 {
        linkDown := false;
      }
    }

    /** One turn of the replay loop: the oldest sample is sent and dropped, unless the ring is empty or AUX is busy. */
    method ReplayOldest(port: Port) returns (line: Option<string>)
      requires Valid()
      modifies ring, sender
      ensures Valid()
      ensures old(ring.fifo) == [] || !port.auxReady ==> line == None && Value() == old(Value())
      ensures old(ring.fifo) != [] && port.auxReady ==>
                var sent := Send(old(Value()), true, old(ring.fifo)[0], port);
                && line == Some(LineOf(sent.events[0]))
                && Value() == sent.state.(buffer := old(ring.fifo)[1..])
    {
      var oldest := ring.Peek();
      if oldest.None? {
        return None;
      }
      if !port.auxReady {
        return None;
      }
      line := sender.SendStatus(SanitizeForUplink(oldest.value), port.uartResult);
      var dropped := ring.DropFront();
    }

    method SendReplays(ports: seq<Port>) returns (lines: seq<string>)
      requires Valid() && |ports| == REPLAY_BURST_PER_TICK
      modifies ring, sender
      ensures Valid()
      ensures Value() == ReplayBurst(old(Value()), ports).state
      ensures lines == LinesOf(ReplayBurst(old(Value()), ports).events)
    {
      lines := [];
      ghost var whole := ReplayBurst(Value(), ports);
      assert ports[0..] == ports;
      for k := 0 to REPLAY_BURST_PER_TICK
        invariant Valid()
        invariant whole.state == ReplayBurst(Value(), ports[k..]).state
        invariant LinesOf(whole.events) == lines + LinesOf(ReplayBurst(Value(), ports[k..]).events)
      {
        assert ports[k..][1..] == ports[k + 1..];
        ghost var before := Value();
        var line := ReplayOldest(ports[k]);
        if line.None? {
          assert ReplayBurst(before, ports[k..]) == Outcome(before, []);
          break;
        }
        ghost var rest := ReplayBurst(Value(), ports[k + 1..]);
        ghost var sent := Send(before, true, before.buffer[0], ports[k]);
        assert ReplayBurst(before, ports[k..]) == Outcome(rest.state, sent.events + rest.events);
        LinesOfConcat(sent.events, rest.events);
        lines := lines + [line.value];
      }
    }

    method SendReplaysAndLive(i: LoopInput) returns (lines: seq<string>)
      requires Valid() && !linkDown && |i.burst| == REPLAY_BURST_PER_TICK
      modifies ring, sender
      ensures Valid()
      ensures Value() == Transmit(old(Value()), i).state
      ensures lines == LinesOf(Transmit(old(Value()), i).events)
    {
      lines := SendReplays(i.burst);
      ghost var replayed := ReplayBurst(old(Value()), i.burst);
      if i.snapshot.Some? && i.live.auxReady {
        var tx := sender.SendStatus(SanitizeForUplink(i.snapshot.value), i.live.uartResult);
        lines := lines + [tx.value];
      }
      LinesOfConcat(replayed.events, SendLive(replayed.state, i.snapshot, i.live).events);
    }

    method TakeSample(d: TelemetryData, nowMs: uint64)
      requires Valid()
      modifies this`lastOfflineSampleMs, this`offlineHasSamples, ring, ring.buf
      ensures Valid()
      ensures Value() == Sample(old(Value()), Some(d), nowMs).state
    {
      if OfflineShouldSample(nowMs, lastOfflineSampleMs, offlineHasSamples, OFFLINE_SAMPLE_PERIOD_MS) {
        lastOfflineSampleMs := nowMs;
        var ok := ring.Push(d);
        offlineHasSamples := true;
      }
    }
  }
}
