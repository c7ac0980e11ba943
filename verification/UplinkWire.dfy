/**
What the LoRa loop puts on the wire: which records a pass sends, what the receiver
makes of their lines, and how often a line can be sent.
*/
module UplinkWire {
  import opened Words
  import opened Wrappers
  import opened TelemetryModel
  import opened Telemetry
  import opened ReceiverContract
  import opened LoraTask
  import opened UplinkRuns
  import CanFreshness

  // ------------------------------------------------------------------
  // Lines and the records they carry
  // ------------------------------------------------------------------

  /** The frames handed to the UART, in order. */
  function SentOf(events: seq<UplinkEvent>): seq<UplinkEvent> {
    if events == [] then [] else (if events[0].Sent? then [events[0]] else []) + SentOf(events[1..])
  }

  lemma {:induction false} SentOfConcat(a: seq<UplinkEvent>, b: seq<UplinkEvent>)
    ensures SentOf(a + b) == SentOf(a) + SentOf(b)
  {
    if a == [] {
      assert a + b == b;
    } else {
      assert (a + b)[0] == a[0] && (a + b)[1..] == a[1..] + b;
      SentOfConcat(a[1..], b);
    }
  }

  /** One line for every frame, in the same order. */
  lemma {:induction false} LinesAreSent(events: seq<UplinkEvent>)
    ensures |LinesOf(events)| == |SentOf(events)|
    ensures forall k :: 0 <= k < |SentOf(events)| ==>
              SentOf(events)[k].Sent? && LinesOf(events)[k] == LineOf(SentOf(events)[k])
  {
    hide LineOf;
    if events != [] {
      LinesAreSent(events[1..]);
    }
  }

  /** Records whose speed went through the clamp. */
  predicate Clamped(ds: seq<TelemetryData>) {
    forall k :: 0 <= k < |ds| ==> ds[k].speedKmhX10 <= 3000
  }

  predicate ClampedInputs(inputs: seq<LoopInput>) {
    forall k :: 0 <= k < |inputs| && inputs[k].snapshot.Some? ==> inputs[k].snapshot.value.speedKmhX10 <= 3000
  }

  predicate ClampedEvents(events: seq<UplinkEvent>) {
    forall k :: 0 <= k < |events| ==> events[k].d.speedKmhX10 <= 3000
  }

  lemma {:induction false} BurstClamped(s: Uplink, ports: seq<Port>)
    requires Clamped(s.buffer)
    ensures Clamped(ReplayBurst(s, ports).state.buffer) && ClampedEvents(ReplayBurst(s, ports).events)
    decreases |ports|
  {
    if ports != [] && s.buffer != [] && ports[0].auxReady {
      var sent := Send(s, true, s.buffer[0], ports[0]);
      BurstClamped(sent.state.(buffer := s.buffer[1..]), ports[1..]);
    }
  }

  lemma PassClamped(s: Uplink, i: LoopInput)
    requires Clamped(s.buffer) && ClampedInputs([i])
    ensures Clamped(Iterate(s, i).state.buffer) && ClampedEvents(Iterate(s, i).events)
  {
    hide Checked, ReplayBurst;
    PassKeeps(s, i);
    var only := [i][0];
    BurstClamped(Checked(s, i).(lastTelemetryTick := i.tick), i.burst);
  }

  lemma {:induction false} RunClamped(s: Uplink, inputs: seq<LoopInput>)
    requires Clamped(s.buffer) && ClampedInputs(inputs)
    ensures ClampedEvents(Run(s, inputs).events)
    decreases |inputs|
  {
    hide Iterate;
    if inputs != [] {
      PassClamped(s, inputs[0]);
      RunClamped(Iterate(s, inputs[0]).state, inputs[1..]);
    }
  }

  lemma {:induction false} SentClamped(events: seq<UplinkEvent>)
    requires ClampedEvents(events)
    ensures ClampedEvents(SentOf(events))
  {
    if events != [] {
      SentClamped(events[1..]);
    }
  }

  /** What the receiver makes of one frame. */
  ghost predicate Understood(e: UplinkEvent, line: string) {
    && e.Sent?
    && (e.d.motorRpm <= 20000 ==>
          ReceiverVerdict(line).Success? && Carries(ReceiverVerdict(line).value, e.seqNo, e.d))
    && (e.d.motorRpm > 20000 ==> ReceiverVerdict(line) == Failure(RangeFail))
  }

  lemma LineUnderstood(e: UplinkEvent)
    requires e.Sent? && e.d.speedKmhX10 <= 3000
    ensures Understood(e, LineOf(e))
  {
    hide StatusLine, ReceiverVerdict, SanitizeForUplink, Carries;
    LineCarries(e.seqNo, e.d);
  }

  /**
   Over any run, link and UART doing what they like: every line handed to the UART, replayed or live, is
   accepted by the receiver exactly if its record's RPM is at most 20000, and then carries the frame's
   sequence number and the record.
  */
  lemma WireIsUnderstood(s: Uplink, inputs: seq<LoopInput>)
    requires Clamped(s.buffer) && ClampedInputs(inputs)
    ensures var lines, sent := LinesOf(Run(s, inputs).events), SentOf(Run(s, inputs).events);
            |lines| == |sent| && forall k :: 0 <= k < |lines| ==> Understood(sent[k], lines[k])
  {
    hide Run, LineOf, Understood;
    var events := Run(s, inputs).events;
    RunClamped(s, inputs);
    SentClamped(events);
    LinesAreSent(events);
    forall k | 0 <= k < |LinesOf(events)|
      ensures Understood(SentOf(events)[k], LinesOf(events)[k])
    {
      LineUnderstood(SentOf(events)[k]);
    }
  }

  // ------------------------------------------------------------------
  // What one pass sends
  // ------------------------------------------------------------------

  /** A transmission tick with the link up. */
  predicate Transmits(s: Uplink, i: LoopInput) {
    IsTxTick(Checked(s, i), i.tick) && !Checked(s, i).linkDown
  }

  function ReplayFrame(s: Uplink, i: LoopInput): seq<UplinkEvent>
    requires |i.burst| == 1
  {
    if Transmits(s, i) && s.buffer != [] && i.burst[0].auxReady
    then [Sent(true, s.buffer[0], s.seqCounter, i.burst[0].uartResult >= 0)] else []
  }

  function LiveFrame(s: Uplink, i: LoopInput, seqNo: uint32): seq<UplinkEvent> {
    if Transmits(s, i) && i.snapshot.Some? && i.live.auxReady
    then [Sent(false, i.snapshot.value, seqNo, i.live.uartResult >= 0)] else []
  }

  /**
   A pass sends, on a tick with the link up, the oldest waiting sample and then the present snapshot, each
   only if AUX is ready at its turn, and nothing else; a record withheld by AUX is not sent by it later.
  */
  lemma PassSends(s: Uplink, i: LoopInput)
    requires |i.burst| == 1
    ensures var replay := ReplayFrame(s, i);
            var seqNo := if replay != [] && replay[0].written then Wrap32(s.seqCounter + 1) else s.seqCounter;
            SentOf(Iterate(s, i).events) == replay + LiveFrame(s, i, seqNo)
  {
    hide Checked, IsTxTick;
    PassKeeps(s, i);
    var t := Checked(s, i).(lastTelemetryTick := i.tick);
    assert SentOf([]) == [];
    if IsTxTick(Checked(s, i), i.tick) {
      if t.linkDown {
        SampleSendsNothing(t, i.snapshot, i.sampleMs);
      } else {
        var replayed := ReplayBurst(t, i.burst);
        var live := SendLive(replayed.state, i.snapshot, i.live);
        OneBurst(t, i.burst);
        SentOfConcat(replayed.events, live.events);
        FramesAreSent(replayed.events);
        FramesAreSent(live.events);
      }
    }
  }

  lemma OneBurst(s: Uplink, ports: seq<Port>)
    requires |ports| == 1
    ensures var o := ReplayBurst(s, ports);
            if s.buffer != [] && ports[0].auxReady then
              && o.events == [Sent(true, s.buffer[0], s.seqCounter, ports[0].uartResult >= 0)]
              && o.state.seqCounter == if ports[0].uartResult >= 0 then Wrap32(s.seqCounter + 1) else s.seqCounter
            else o == Outcome(s, [])
  {
    if s.buffer != [] && ports[0].auxReady {
      var sent := Send(s, true, s.buffer[0], ports[0]);
      assert ports[1..] == [];
      assert ReplayBurst(sent.state.(buffer := s.buffer[1..]), ports[1..]).events == [];
    }
  }

  lemma FramesAreSent(events: seq<UplinkEvent>)
    requires |events| <= 1 && forall k :: 0 <= k < |events| ==> events[k].Sent?
    ensures SentOf(events) == events
  {
    if events != [] {
      assert events[1..] == [] && events == [events[0]];
    }
  }

  lemma SampleSendsNothing(s: Uplink, snapshot: Option<TelemetryData>, nowMs: uint64)
    ensures SentOf(Sample(s, snapshot, nowMs).events) == []
  {
    LinesAreSent(Sample(s, snapshot, nowMs).events);
    SamplesAreNotSent(s, snapshot, nowMs);
  }

  // ------------------------------------------------------------------
  // How often
  // ------------------------------------------------------------------

  /** True elapsed ticks survive the truncation of both stamps up to whole turns of the counter. */
  lemma ElapsedModulo(last: nat, now: nat)
    requires last <= now
    ensures Sub32(now % TWO_32, last % TWO_32) == (now - last) % TWO_32
    ensures (now - last) % TWO_32 <= now - last
  {
    var q := now / TWO_32 - last / TWO_32;
    assert now - last == TWO_32 * q + (now % TWO_32 - last % TWO_32);
    WrapShift(now % TWO_32 - last % TWO_32, q);
  }

  /** A transmission tick comes with the first pass 200 ms (20 ticks) or more after the last one. */
  lemma TickIffPeriod(s: Uplink, last: nat, now: nat)
    requires s.lastTelemetryTick == last % TWO_32 && last <= now < last + TWO_32
    ensures IsTxTick(s, now % TWO_32) <==> now - last >= 20
  {
    CanFreshness.ElapsedTicks(last, now);
  }

  /** The passes of a run happen at these true ticks. */
  ghost predicate HappensAt(inputs: seq<LoopInput>, ticks: seq<nat>, last: nat) {
    && |ticks| == |inputs|
    && (forall k :: 0 <= k < |ticks| ==> inputs[k].tick == ticks[k] % TWO_32 && last <= ticks[k])
    && (forall j, k :: 0 <= j < k < |ticks| ==> ticks[j] <= ticks[k])
  }

  lemma PassRate(s: Uplink, i: LoopInput, last: nat, now: nat)
    requires |i.burst| == 1 && i.tick == now % TWO_32 && last <= now && s.lastTelemetryTick == last % TWO_32
    ensures |SentOf(Iterate(s, i).events)| <= 2
    ensures SentOf(Iterate(s, i).events) != [] ==> now - last >= 20
    ensures (Iterate(s, i).state.lastTelemetryTick == last % TWO_32 && SentOf(Iterate(s, i).events) == []) ||
            (Iterate(s, i).state.lastTelemetryTick == now % TWO_32 && now - last >= 20)
  {
    hide Checked, Sub32;
    PassSends(s, i);
    PassKeeps(s, i);
    ElapsedModulo(last, now);
    TickIsLast(s, i);
  }

  lemma TickIsLast(s: Uplink, i: LoopInput)
    ensures Iterate(s, i).state.lastTelemetryTick ==
            if IsTxTick(Checked(s, i), i.tick) then i.tick else s.lastTelemetryTick
  {
    hide Checked, IsTxTick;
    PassKeeps(s, i);
    BurstKeepsTick(Checked(s, i).(lastTelemetryTick := i.tick), i.burst);
  }

  lemma {:induction false} BurstKeepsTick(s: Uplink, ports: seq<Port>)
    ensures ReplayBurst(s, ports).state.lastTelemetryTick == s.lastTelemetryTick
    decreases |ports|
  {
    if ports != [] && s.buffer != [] && ports[0].auxReady {
      BurstKeepsTick(Send(s, true, s.buffer[0], ports[0]).state.(buffer := s.buffer[1..]), ports[1..]);
    }
  }

  /**
   The load over time, whatever the tick counter does: a run that ends at a true tick `end` has sent at most
   two lines for every 20 ticks since the last transmission before it.
  */
  lemma {:induction false} RateIsBounded(s: Uplink, inputs: seq<LoopInput>, ticks: seq<nat>, last: nat, end: nat)
    requires s.lastTelemetryTick == last % TWO_32 && HappensAt(inputs, ticks, last)
    requires forall k :: 0 <= k < |inputs| ==> |inputs[k].burst| == 1 && ticks[k] <= end
    requires last <= end
    ensures |LinesOf(Run(s, inputs).events)| == |SentOf(Run(s, inputs).events)|
    ensures 20 * |SentOf(Run(s, inputs).events)| <= 2 * (end - last)
    decreases |inputs|
  {
    hide Iterate;
    LinesAreSent(Run(s, inputs).events);
    if inputs != [] {
      var first := Iterate(s, inputs[0]);
      PassRate(s, inputs[0], last, ticks[0]);
      SentOfConcat(first.events, Run(first.state, inputs[1..]).events);
      var kept := first.state.lastTelemetryTick == last % TWO_32 && SentOf(first.events) == [];
      var next := if kept then last else ticks[0];
      RateIsBounded(first.state, inputs[1..], ticks[1..], next, end);
    }
  }
}
