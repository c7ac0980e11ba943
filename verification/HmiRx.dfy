/**
The Nextion receive path (HMIHelpers.h, DisplayHMI.cpp): a byte automaton that
tells touch frames `5A c ~c` from the display's reset announcements, and the
scan that turns one UART buffer into at most one command.
*/
module HmiRx {
  import opened Words
  import opened Wrappers

  const HEADER: uint8 := 0x5A
  const READY: uint8 := 0x88
  const STARTUP: seq<uint8> := [0x00, 0x00, 0x00, 0xFF, 0xFF, 0xFF]

  datatype Event = Nothing | Touch(cmd: uint8) | Reset

  datatype Rx = Rx(touchState: uint8, pendingCmd: uint8, zeroRun: uint8, ffRun: uint8)

  const IDLE: Rx := Rx(0, 0, 0, 0)

  function Complement(c: uint8): uint8 {
    0xFF - c
  }

  /** A byte that can be part of a reset announcement but not of a touch frame. */
  predicate IsSystem(b: uint8) {
    b == 0x00 || b == 0xFF || b == READY
  }

  // --- The automaton, one byte at a time ---

  function TrackStartup(st: Rx, b: uint8): (Rx, Event)
    requires b == 0x00 || b == 0xFF
  {
    var idle := st.(touchState := 0, pendingCmd := 0);
    if b == 0x00 then
      if st.ffRun > 0 then (idle.(ffRun := 0, zeroRun := 1), Nothing)
      else if st.zeroRun < 3 then (idle.(zeroRun := st.zeroRun + 1), Nothing)
      else (idle, Nothing)
    else if st.zeroRun >= 3 then
      var run := (st.ffRun + 1) % 0x100;
      if run >= 3 then (IDLE, Reset) else (idle.(ffRun := run), Nothing)
    else
      (idle.(ffRun := 0, zeroRun := 0), Nothing)
  }

  function TrackTouch(st: Rx, b: uint8): (Rx, Event) {
    var s := st.(zeroRun := 0, ffRun := 0);
    if s.touchState == 0 then (if b == HEADER then s.(touchState := 1) else s, Nothing)
    else if s.touchState == 1 then (s.(pendingCmd := b, touchState := 2), Nothing)
    else if s.touchState == 2 && b == Complement(s.pendingCmd) then (s.(touchState := 0), Touch(s.pendingCmd))
    else (s.(touchState := 0), Nothing)
  }

  function Classify(st: Rx, b: uint8): (Rx, Event) {
    if b == READY then (IDLE, Reset)
    else if b == 0x00 || b == 0xFF then TrackStartup(st, b)
    else TrackTouch(st, b)
  }

  function After(st: Rx, bytes: seq<uint8>): Rx
    decreases |bytes|
  {
    if bytes == [] then st else After(Classify(st, bytes[0]).0, bytes[1..])
  }

  function Events(st: Rx, bytes: seq<uint8>): seq<Event>
    decreases |bytes|
  {
    if bytes == [] then []
    else [Classify(st, bytes[0]).1] + Events(Classify(st, bytes[0]).0, bytes[1..])
  }

  lemma {:induction false} FeedConcat(st: Rx, a: seq<uint8>, b: seq<uint8>)
    ensures After(st, a + b) == After(After(st, a), b)
    ensures Events(st, a + b) == Events(st, a) + Events(After(st, a), b)
    decreases |a|
  {
    hide Classify;
    if a == [] {
      assert a + b == b;
    } else {
      assert (a + b)[0] == a[0] && (a + b)[1..] == a[1..] + b;
      FeedConcat(Classify(st, a[0]).0, a[1..], b);
    }
  }

  /** One more byte at the end of a history. */
  lemma FeedSnoc(st: Rx, h: seq<uint8>, b: uint8)
    ensures After(st, h + [b]) == Classify(After(st, h), b).0
    ensures Events(st, h + [b]) == Events(st, h) + [Classify(After(st, h), b).1]
  {
    hide Classify;
    FeedConcat(st, h, [b]);
    assert [b][1..] == [];
  }

  // --- Resets: a suffix match over the whole history ---

  predicate EndsWith(h: seq<uint8>, suffix: seq<uint8>) {
    |suffix| <= |h| && h[|h| - |suffix|..] == suffix
  }

  /** The display announces a reset with 0x88 or with 00 00 00 FF FF FF. */
  predicate ResetSignature(h: seq<uint8>) {
    EndsWith(h, [READY]) || EndsWith(h, STARTUP)
  }

  /** Length of the run of v at the end of the history. */
  function TrailingRun(h: seq<uint8>, v: uint8): (n: nat)
    ensures n <= |h|
  {
    if h == [] || h[|h| - 1] != v then 0 else 1 + TrailingRun(h[..|h| - 1], v)
  }

  /** What the two counters hold when the history ends with z zeros and then f times FF. */
  predicate CountersFit(st: Rx, f: nat, z: nat) {
    if f == 0 then st.ffRun == 0 && st.zeroRun == if z < 3 then z else 3
    else if f < 3 && z >= 3 then st.zeroRun == 3 && st.ffRun == f
    else st.zeroRun == 0 && st.ffRun == 0
  }

  function FFs(h: seq<uint8>): (n: nat)
    ensures n <= |h|
  {
    TrailingRun(h, 0xFF)
  }

  function ZerosBeforeFFs(h: seq<uint8>): nat {
    TrailingRun(h[..|h| - FFs(h)], 0x00)
  }

  predicate Tracks(st: Rx, h: seq<uint8>) {
    CountersFit(st, FFs(h), ZerosBeforeFFs(h))
  }

  lemma StartupBytes(h: seq<uint8>)
    ensures EndsWith(h, STARTUP) <==>
            var n := |h|;
            && n >= 6
            && h[n - 6] == 0x00 && h[n - 5] == 0x00 && h[n - 4] == 0x00
            && h[n - 3] == 0xFF && h[n - 2] == 0xFF && h[n - 1] == 0xFF
  {
    if |h| >= 6 {
      var s := h[|h| - 6..];
      assert s == [h[|h| - 6], h[|h| - 5], h[|h| - 4], h[|h| - 3], h[|h| - 2], h[|h| - 1]];
      if s == STARTUP {
        assert s[0] == 0x00 && s[1] == 0x00 && s[2] == 0x00 && s[3] == 0xFF && s[4] == 0xFF && s[5] == 0xFF;
      }
    }
  }

  lemma StartupPattern(h: seq<uint8>)
    ensures EndsWith(h, STARTUP) <==>
            TrailingRun(h, 0xFF) == 3 && TrailingRun(h[..|h| - 3], 0x00) >= 3
  {
    hide EndsWith, TrailingRun;
    StartupBytes(h);
    var n := |h|;
    if n >= 6 {
      RunAtLeast(h, 0xFF, 3);
      RunAtLeast(h, 0xFF, 4);
      RunAtLeast(h[..n - 3], 0x00, 3);
      var p := h[..n - 3];
      assert p[|p| - 3] == h[n - 6] && p[|p| - 2] == h[n - 5] && p[|p| - 1] == h[n - 4];
    }
  }

  lemma {:induction false} RunAtLeast(h: seq<uint8>, v: uint8, k: nat)
    requires k <= |h|
    ensures TrailingRun(h, v) >= k <==> forall i :: |h| - k <= i < |h| ==> h[i] == v
  {
    if k > 0 && h[|h| - 1] == v {
      var p := h[..|h| - 1];
      RunAtLeast(p, v, k - 1);
      assert forall i :: |h| - k <= i < |p| ==> p[i] == h[i];
    }
  }

  lemma RunGrows(h: seq<uint8>, v: uint8, b: uint8)
    ensures TrailingRun(h + [b], v) == if b == v then TrailingRun(h, v) + 1 else 0
  {
    assert (h + [b])[..|h|] == h;
  }

  lemma LastByte(h: seq<uint8>, b: uint8)
    ensures EndsWith(h + [b], [READY]) <==> b == READY
  {
    assert (h + [b])[|h|..] == [b];
  }

  /** How the two run lengths change with one more byte. */
  lemma RunsGrow(h: seq<uint8>, b: uint8)
    ensures FFs(h + [b]) == if b == 0xFF then FFs(h) + 1 else 0
    ensures ZerosBeforeFFs(h + [b]) ==
            if b == 0xFF then ZerosBeforeFFs(h)
            else if b == 0x00 then (if FFs(h) == 0 then ZerosBeforeFFs(h) else 0) + 1
            else 0
  {
    hide TrailingRun;
    var g := h + [b];
    RunGrows(h, 0xFF, b);
    RunGrows(h, 0x00, b);
    assert g[..|g|] == g && h[..|h|] == h;
    assert g[..|h| - FFs(h)] == h[..|h| - FFs(h)];
    RunsExclude(h);
  }

  lemma RunsExclude(h: seq<uint8>)
    ensures TrailingRun(h, 0xFF) > 0 ==> TrailingRun(h, 0x00) == 0
  {
  }

  /** The announcement needs no search: the run lengths decide it. */
  lemma SignatureByRuns(h: seq<uint8>, b: uint8)
    ensures ResetSignature(h + [b]) <==>
            b == READY || (b == 0xFF && FFs(h) == 2 && ZerosBeforeFFs(h) >= 3)
  {
    hide EndsWith, TrailingRun;
    StartupPattern(h + [b]);
    RunsGrow(h, b);
    LastByte(h, b);
    assert FFs(h + [b]) == 3 ==> ZerosBeforeFFs(h + [b]) == TrailingRun((h + [b])[..|h| + 1 - 3], 0x00);
  }

  lemma TrackStep(st: Rx, h: seq<uint8>, b: uint8)
    requires Tracks(st, h)
    ensures Tracks(Classify(st, b).0, h + [b])
    ensures Classify(st, b).1.Reset? <==> ResetSignature(h + [b])
  {
    hide FFs, ZerosBeforeFFs, ResetSignature;
    SignatureByRuns(h, b);
    RunsGrow(h, b);
  }

  lemma StartTracks()
    ensures Tracks(IDLE, [])
  {
  }

  lemma {:induction false} FeedTracks(h: seq<uint8>)
    ensures Tracks(After(IDLE, h), h)
    decreases |h|
  {
    hide Classify, Tracks;
    if h == [] {
      StartTracks();
    } else {
      var n := |h| - 1;
      FeedTracks(h[..n]);
      assert h == h[..n] + [h[n]];
      FeedSnoc(IDLE, h[..n], h[n]);
      TrackStep(After(IDLE, h[..n]), h[..n], h[n]);
    }
  }

  /** After any history, the next byte reports a reset iff it completes an announcement. */
  lemma ResetIsSuffixMatch(h: seq<uint8>, b: uint8)
    ensures Classify(After(IDLE, h), b).1.Reset? <==> ResetSignature(h + [b])
  {
    FeedTracks(h);
    TrackStep(After(IDLE, h), h, b);
  }

  lemma {:induction false} EventAt(st: Rx, h: seq<uint8>, i: nat)
    requires i < |h|
    ensures |Events(st, h)| == |h|
    ensures Events(st, h)[i] == Classify(After(st, h[..i]), h[i]).1
    decreases |h|
  {
    hide Classify;
    var n := |h| - 1;
    assert h == h[..n] + [h[n]];
    FeedSnoc(st, h[..n], h[n]);
    if n > 0 {
      EventAt(st, h[..n], if i < n then i else 0);
      if i < n {
        assert h[..n][..i] == h[..i];
      }
    } else {
      assert h[..n] == [] && Events(st, []) == [];
    }
  }

  lemma ResetAt(before: seq<uint8>, read: seq<uint8>, i: nat)
    requires i < |read|
    ensures |Events(After(IDLE, before), read)| == |read|
    ensures Events(After(IDLE, before), read)[i].Reset? <==> ResetSignature(before + read[..i + 1])
  {
    hide Classify, ResetSignature, Events, After;
    EventAt(After(IDLE, before), read, i);
    FeedConcat(IDLE, before, read[..i]);
    ResetIsSuffixMatch(before + read[..i], read[i]);
    assert before + read[..i + 1] == (before + read[..i]) + [read[i]];
  }

  /** Bytes read after a history announce a reset iff some point among them completes the pattern. */
  lemma ResetSeenIffAnnounced(before: seq<uint8>, read: seq<uint8>)
    ensures Reset in Events(After(IDLE, before), read) <==>
            exists k :: 0 < k <= |read| && ResetSignature(before + read[..k])
  {
    hide Classify, ResetSignature, Events, After;
    var evs := Events(After(IDLE, before), read);
    EventsLength(After(IDLE, before), read);
    if k :| 0 < k <= |read| && ResetSignature(before + read[..k]) {
      ResetAt(before, read, k - 1);
      assert evs[k - 1] == Reset;
    }
    if i :| 0 <= i < |evs| && evs[i] == Reset {
      ResetAt(before, read, i);
    }
  }

  lemma {:induction false} EventsLength(st: Rx, h: seq<uint8>)
    ensures |Events(st, h)| == |h|
    decreases |h|
  {
    hide Classify;
    if h != [] {
      EventsLength(Classify(st, h[0]).0, h[1..]);
    }
  }

  // --- Touch frames: the automaton is a left-to-right frame reader ---

  /** The commands a recursive reader finds: skip to a header, then want two touch bytes that complement. */
  function Frames(h: seq<uint8>): seq<uint8> {
    if |h| < 3 then []
    else if h[0] != HEADER then Frames(h[1..])
    else if IsSystem(h[1]) then Frames(h[1..])
    else if IsSystem(h[2]) then Frames(h[2..])
    else (if h[2] == Complement(h[1]) then [h[1]] else []) + Frames(h[3..])
  }

  /** The commands among the events. */
  function Commands(evs: seq<Event>): seq<uint8> {
    if evs == [] then []
    else (if evs[0].Touch? then [evs[0].cmd] else []) + Commands(evs[1..])
  }

  lemma {:induction false} CommandsConcat(a: seq<Event>, b: seq<Event>)
    ensures Commands(a + b) == Commands(a) + Commands(b)
  {
    if a == [] {
      assert a + b == b;
    } else {
      assert (a + b)[0] == a[0] && (a + b)[1..] == a[1..] + b;
      CommandsConcat(a[1..], b);
    }
  }

  /** Where a byte leaves the touch part of the automaton. */
  lemma TouchStep(st: Rx, b: uint8)
    ensures var r := Classify(st, b);
            && (IsSystem(b) ==> r.0.touchState == 0 && !r.1.Touch?)
            && (!IsSystem(b) ==>
                && r.0.touchState ==
                   (if st.touchState == 1 then 2 else if st.touchState == 0 && b == HEADER then 1 else 0)
                && (st.touchState == 1 ==> r.0.pendingCmd == b)
                && r.1 ==
                   (if st.touchState == 2 && b == Complement(st.pendingCmd) then Touch(st.pendingCmd) else Nothing))
  {
  }

  /** The first n bytes split off. */
  lemma FeedSplit(st: Rx, h: seq<uint8>, n: nat)
    requires n <= |h|
    ensures Commands(Events(st, h)) == Commands(Events(st, h[..n])) + Commands(Events(After(st, h[..n]), h[n..]))
  {
    hide Classify, Commands;
    assert h == h[..n] + h[n..];
    FeedConcat(st, h[..n], h[n..]);
    CommandsConcat(Events(st, h[..n]), Events(After(st, h[..n]), h[n..]));
  }

  lemma OneByte(st: Rx, a: uint8)
    ensures After(st, [a]) == Classify(st, a).0
    ensures Events(st, [a]) == [Classify(st, a).1]
    ensures Commands(Events(st, [a])) == if Classify(st, a).1.Touch? then [Classify(st, a).1.cmd] else []
  {
    hide Classify;
    assert [a][1..] == [];
    assert [Classify(st, a).1][1..] == [];
  }

  /** Two bytes from rest: no command yet, perhaps a header and a candidate. */
  lemma TwoBytes(st: Rx, a: uint8, b: uint8)
    requires st.touchState == 0
    ensures Commands(Events(st, [a, b])) == []
    ensures a == HEADER && !IsSystem(b) ==> After(st, [a, b]).touchState == 2 && After(st, [a, b]).pendingCmd == b
    ensures IsSystem(b) ==> After(st, [a, b]).touchState == 0
  {
    hide Classify, Commands, Events, After;
    TouchStep(st, a);
    TouchStep(Classify(st, a).0, b);
    OneByte(st, a);
    OneByte(Classify(st, a).0, b);
    assert [a, b] == [a] + [b];
    FeedConcat(st, [a], [b]);
    CommandsConcat(Events(st, [a]), Events(Classify(st, a).0, [b]));
  }

  /** Fewer than three bytes from rest: no command. */
  lemma ShortReads(st: Rx, h: seq<uint8>)
    requires st.touchState == 0 && |h| < 3
    ensures Commands(Events(st, h)) == []
  {
    hide Classify;
    if |h| == 1 {
      assert h == [h[0]];
      OneByte(st, h[0]);
      TouchStep(st, h[0]);
    } else if |h| == 2 {
      assert h == [h[0], h[1]];
      TwoBytes(st, h[0], h[1]);
    }
  }

  /** From rest the automaton reports exactly the commands the reader finds. */
  lemma {:induction false} TouchesAreFrames(st: Rx, h: seq<uint8>)
    requires st.touchState == 0
    ensures Commands(Events(st, h)) == Frames(h)
    decreases |h|
  {
    hide Classify, Commands, Events, After;
    if |h| < 3 {
      ShortReads(st, h);
    } else {
      TouchStep(st, h[0]);
      OneByte(st, h[0]);
      assert h[..1] == [h[0]] && h[..2] == [h[0], h[1]];
      if h[0] != HEADER {
        FeedSplit(st, h, 1);
        TouchesAreFrames(After(st, [h[0]]), h[1..]);
      } else {
        TwoBytes(st, h[0], h[1]);
        var two := After(st, [h[0], h[1]]);
        FeedSplit(st, h, 2);
        if IsSystem(h[1]) {
          TouchesAreFrames(two, h[2..]);
          SkipOne(h[1..]);
          assert h[1..][1..] == h[2..];
        } else {
          TouchStep(two, h[2]);
          OneByte(two, h[2]);
          FeedSplit(two, h[2..], 1);
          assert h[2..][..1] == [h[2]] && h[2..][1..] == h[3..];
          TouchesAreFrames(After(two, [h[2]]), h[3..]);
          if IsSystem(h[2]) {
            SkipOne(h[2..]);
          }
        }
      }
    }
  }

  /** What the touch part remembers: the header, or the header and a candidate, at the end of the history. */
  predicate TouchTracks(st: Rx, h: seq<uint8>) {
    && st.touchState <= 2
    && (st.touchState == 1 ==> EndsWith(h, [HEADER]))
    && (st.touchState == 2 ==> EndsWith(h, [HEADER, st.pendingCmd]))
  }

  lemma SuffixGrows(h: seq<uint8>, suffix: seq<uint8>, b: uint8)
    requires EndsWith(h, suffix)
    ensures EndsWith(h + [b], suffix + [b])
  {
    assert (h + [b])[|h| - |suffix|..] == h[|h| - |suffix|..] + [b];
  }

  lemma TouchTrackStep(st: Rx, h: seq<uint8>, b: uint8)
    requires TouchTracks(st, h)
    ensures TouchTracks(Classify(st, b).0, h + [b])
    ensures Classify(st, b).1.Touch? ==>
              EndsWith(h + [b], [HEADER, Classify(st, b).1.cmd, Complement(Classify(st, b).1.cmd)])
  {
    hide Classify, EndsWith;
    TouchStep(st, b);
    assert EndsWith(h, []) by {
      EmptySuffix(h);
    }
    SuffixGrows(h, [], b);
    assert [] + [b] == [b];
    if st.touchState == 1 {
      SuffixGrows(h, [HEADER], b);
      assert [HEADER] + [b] == [HEADER, b];
    } else if st.touchState == 2 {
      SuffixGrows(h, [HEADER, st.pendingCmd], b);
      assert [HEADER, st.pendingCmd] + [b] == [HEADER, st.pendingCmd, b];
    }
  }

  lemma EmptySuffix(h: seq<uint8>)
    ensures EndsWith(h, [])
  {
    assert h[|h|..] == [];
  }

  lemma {:induction false} FeedTouchTracks(h: seq<uint8>)
    ensures TouchTracks(After(IDLE, h), h)
    decreases |h|
  {
    hide Classify, TouchTracks;
    if h == [] {
      assert TouchTracks(IDLE, []) by {
        StartTouchTracks();
      }
    } else {
      var n := |h| - 1;
      FeedTouchTracks(h[..n]);
      assert h == h[..n] + [h[n]];
      FeedSnoc(IDLE, h[..n], h[n]);
      TouchTrackStep(After(IDLE, h[..n]), h[..n], h[n]);
    }
  }

  lemma StartTouchTracks()
    ensures TouchTracks(IDLE, [])
  {
  }

  /**
  After any history, a byte that reports a touch completes the frame of that
  command, and it reports one exactly when the frame reader finds one more.
  */
  lemma TouchMeansFrame(h: seq<uint8>, b: uint8)
    ensures var ev := Classify(After(IDLE, h), b).1;
            && (ev.Touch? ==> EndsWith(h + [b], [HEADER, ev.cmd, Complement(ev.cmd)]))
            && Frames(h + [b]) == Frames(h) + (if ev.Touch? then [ev.cmd] else [])
  {
    hide Classify, EndsWith, Frames, TouchTracks;
    FeedTouchTracks(h);
    TouchTrackStep(After(IDLE, h), h, b);
    FeedSnoc(IDLE, h, b);
    OneByte(After(IDLE, h), b);
    CommandsConcat(Events(IDLE, h), Events(After(IDLE, h), [b]));
    TouchesAreFrames(IDLE, h);
    TouchesAreFrames(IDLE, h + [b]);
  }

  /** A byte that is no header never starts a frame. */
  lemma SkipOne(h: seq<uint8>)
    requires h != [] && h[0] != HEADER
    ensures Frames(h) == Frames(h[1..])
  {
  }

  // --- Framing: what a sender of frames gets back ---

  function Frame(c: uint8): (f: seq<uint8>)
    ensures |f| == 3
  {
    [HEADER, c, Complement(c)]
  }

  function Stream(cmds: seq<uint8>): seq<uint8> {
    if cmds == [] then [] else Frame(cmds[0]) + Stream(cmds[1..])
  }

  function Touches(cmds: seq<uint8>): (evs: seq<Event>)
    ensures |evs| == |cmds|
  {
    if cmds == [] then [] else [Touch(cmds[0])] + Touches(cmds[1..])
  }

  /** The events a caller acts on. */
  function Visible(evs: seq<Event>): seq<Event> {
    if evs == [] then []
    else (if evs[0].Nothing? then [] else [evs[0]]) + Visible(evs[1..])
  }

  lemma {:induction false} VisibleConcat(a: seq<Event>, b: seq<Event>)
    ensures Visible(a + b) == Visible(a) + Visible(b)
  {
    if a == [] {
      assert a + b == b;
    } else {
      assert (a + b)[0] == a[0] && (a + b)[1..] == a[1..] + b;
      VisibleConcat(a[1..], b);
    }
  }

  /** Commands whose frame holds no reset byte, neither in itself nor in its complement. */
  predicate Decodable(c: uint8) {
    !IsSystem(c) && !IsSystem(Complement(c))
  }

  /** Commands that no misaligned reading can take for a header. */
  predicate Synchronises(c: uint8) {
    Decodable(c) && c != HEADER && Complement(c) != HEADER
  }

  /** What one frame read from rest produces, for every byte as its command. */
  function FrameEvents(c: uint8): (evs: seq<Event>)
    ensures |evs| <= 1
    ensures evs == [Touch(c)] <==> Decodable(c)
  {
    if Decodable(c) then [Touch(c)]
    else if c == READY || Complement(c) == READY then [Reset]
    else []
  }

  function StreamEvents(cmds: seq<uint8>): (evs: seq<Event>)
    ensures |evs| <= |cmds|
  {
    if cmds == [] then [] else FrameEvents(cmds[0]) + StreamEvents(cmds[1..])
  }

  /** The three steps of one frame. */
  lemma FrameSteps(st: Rx, c: uint8)
    ensures var s1 := Classify(st, HEADER);
            var s2 := Classify(s1.0, c);
            var s3 := Classify(s2.0, Complement(c));
            After(st, Frame(c)) == s3.0 && Events(st, Frame(c)) == [s1.1, s2.1, s3.1]
  {
    hide Classify;
    assert Frame(c) == ([HEADER] + [c]) + [Complement(c)];
    FeedSnoc(st, [HEADER] + [c], Complement(c));
    FeedSnoc(st, [HEADER], c);
    OneByte(st, HEADER);
  }

  lemma VisibleOfThree(a: Event, b: Event, c: Event)
    ensures Visible([a, b, c]) ==
            (if a.Nothing? then [] else [a]) + (if b.Nothing? then [] else [b]) + (if c.Nothing? then [] else [c])
  {
    assert [a, b, c] == [a] + [b] + [c];
    VisibleConcat([a] + [b], [c]);
    VisibleConcat([a], [b]);
    assert forall e: Event {:trigger Visible([e])} :: [e][1..] == [];
  }

  lemma FrameFromRest(st: Rx, c: uint8)
    requires st.touchState == 0
    ensures After(st, Frame(c)).touchState == 0
    ensures Visible(Events(st, Frame(c))) == FrameEvents(c)
  {
    hide After, Events, Visible;
    FrameSteps(st, c);
    var s1 := Classify(st, HEADER);
    var s2 := Classify(s1.0, c);
    var s3 := Classify(s2.0, Complement(c));
    VisibleOfThree(s1.1, s2.1, s3.1);
  }

  /** A stream of frames read from rest: every frame is decoded by itself. */
  lemma {:induction false} StreamFromRest(st: Rx, cmds: seq<uint8>)
    requires st.touchState == 0
    ensures After(st, Stream(cmds)).touchState == 0
    ensures Visible(Events(st, Stream(cmds))) == StreamEvents(cmds)
    decreases |cmds|
  {
    hide Classify, Frame, FrameEvents;
    if cmds != [] {
      var f, rest := Frame(cmds[0]), Stream(cmds[1..]);
      FrameFromRest(st, cmds[0]);
      StreamFromRest(After(st, f), cmds[1..]);
      FeedConcat(st, f, rest);
      VisibleConcat(Events(st, f), Events(After(st, f), rest));
    }
  }

  lemma {:induction false} AllDecodable(cmds: seq<uint8>)
    ensures StreamEvents(cmds) == Touches(cmds) <==> forall c :: c in cmds ==> Decodable(c)
  {
    hide Decodable, FrameEvents;
    if cmds != [] {
      var c, rest := cmds[0], cmds[1..];
      AllDecodable(rest);
      assert cmds == [c] + rest;
      var evs := StreamEvents(cmds);
      if evs == Touches(cmds) {
        assert evs[0] == Touch(c) && evs[1..] == Touches(rest);
        assert FrameEvents(c) == [Touch(c)] && evs[1..] == StreamEvents(rest);
      }
    }
  }

  /** From rest a stream decodes to exactly its commands, with no reset, iff every one is decodable. */
  lemma FramingRoundTrip(st: Rx, cmds: seq<uint8>)
    requires st.touchState == 0
    ensures Visible(Events(st, Stream(cmds))) == Touches(cmds) <==> forall c :: c in cmds ==> Decodable(c)
  {
    StreamFromRest(st, cmds);
    AllDecodable(cmds);
  }

  lemma DecodableBytes(c: uint8)
    ensures Decodable(c) <==> c != 0x00 && c != 0xFF && c != 0x88 && c != 0x77
    ensures Synchronises(c) <==> Decodable(c) && c != 0x5A && c != 0xA5
    ensures 1 <= c <= 4 ==> Synchronises(c)
  {
  }

  // --- Self-synchronisation ---

  /** What the first frame after garbage can still produce: at most a touch of the header's complement. */
  function Leftover(st: Rx): seq<Event> {
    if st.touchState == 2 && st.pendingCmd == Complement(HEADER) then [Touch(st.pendingCmd)] else []
  }

  lemma FirstFrameResynchronises(st: Rx, c: uint8)
    requires Synchronises(c)
    ensures After(st, Frame(c)).touchState == 0
    ensures Visible(Events(st, Frame(c))) == if st.touchState == 0 then [Touch(c)] else Leftover(st)
  {
    hide After, Events, Visible;
    FrameSteps(st, c);
    var s1 := Classify(st, HEADER);
    var s2 := Classify(s1.0, c);
    var s3 := Classify(s2.0, Complement(c));
    VisibleOfThree(s1.1, s2.1, s3.1);
  }

  /**
  Whatever bytes came before, a stream of frames decodes to exactly its
  commands, except that the first frame may be lost; no reset is reported.
  */
  lemma SelfSynchronises(garbage: seq<uint8>, cmds: seq<uint8>)
    requires cmds != []
    requires forall c :: c in cmds ==> Synchronises(c)
    ensures var st := After(IDLE, garbage);
            Visible(Events(st, Stream(cmds))) ==
            (if st.touchState == 0 then [Touch(cmds[0])] else Leftover(st)) + Touches(cmds[1..])
  {
    hide Events, Visible, After, Frame, Synchronises, Decodable, Leftover;
    var st := After(IDLE, garbage);
    var f, rest := Frame(cmds[0]), cmds[1..];
    FirstFrameResynchronises(st, cmds[0]);
    FeedConcat(st, f, Stream(rest));
    VisibleConcat(Events(st, f), Events(After(st, f), Stream(rest)));
    forall c | c in rest
      ensures Decodable(c)
    {
      assert c in cmds;
      DecodableBytes(c);
    }
    FramingRoundTrip(After(st, f), rest);
  }

  function Repeated(c: uint8, n: nat): seq<uint8> {
    if n == 0 then [] else [c] + Repeated(c, n - 1)
  }

  /** One frame of A5 read from a header, and one of 5A read from a header and A5: each ends where it began. */
  lemma StuckFrames(st: Rx)
    ensures st.touchState == 1 ==>
              Visible(Events(st, Frame(0xA5))) == [Touch(0x5A)] && After(st, Frame(0xA5)).touchState == 1
    ensures st.touchState == 2 && st.pendingCmd == 0xA5 ==>
              && Visible(Events(st, Frame(0x5A))) == [Touch(0xA5)]
              && After(st, Frame(0x5A)).touchState == 2 && After(st, Frame(0x5A)).pendingCmd == 0xA5
  {
    hide Events, Visible, After;
    FrameSteps(st, 0xA5);
    FrameSteps(st, 0x5A);
    var a1 := Classify(st, HEADER);
    var a2 := Classify(a1.0, 0xA5);
    VisibleOfThree(a1.1, a2.1, Classify(a2.0, 0x5A).1);
    var b2 := Classify(a1.0, 0x5A);
    VisibleOfThree(a1.1, b2.1, Classify(b2.0, 0xA5).1);
  }

  /** A stream of one of the two is misread as touches of the other for ever. */
  lemma {:induction false} StuckStreams(st: Rx, n: nat)
    ensures st.touchState == 1 ==> Visible(Events(st, Stream(Repeated(0xA5, n)))) == Touches(Repeated(0x5A, n))
    ensures st.touchState == 2 && st.pendingCmd == 0xA5 ==>
              Visible(Events(st, Stream(Repeated(0x5A, n)))) == Touches(Repeated(0xA5, n))
    decreases n
  {
    hide Events, Visible, After, Frame;
    if n == 0 {
      NothingFed(st);
    } else {
      StuckFrames(st);
      RepeatedStream(st, 0xA5, n);
      RepeatedStream(st, 0x5A, n);
      StuckStreams(After(st, Frame(0xA5)), n - 1);
      StuckStreams(After(st, Frame(0x5A)), n - 1);
      assert Repeated(0xA5, n)[1..] == Repeated(0xA5, n - 1) && Repeated(0x5A, n)[1..] == Repeated(0x5A, n - 1);
    }
  }

  lemma RepeatedStream(st: Rx, c: uint8, n: nat)
    requires n > 0
    ensures Visible(Events(st, Stream(Repeated(c, n)))) ==
            Visible(Events(st, Frame(c))) + Visible(Events(After(st, Frame(c)), Stream(Repeated(c, n - 1))))
  {
    hide Events, Visible, After, Frame;
    var rest := Stream(Repeated(c, n - 1));
    assert Repeated(c, n)[1..] == Repeated(c, n - 1);
    FeedConcat(st, Frame(c), rest);
    VisibleConcat(Events(st, Frame(c)), Events(After(st, Frame(c)), rest));
  }

  /** The garbage that leads there: a lone header, and a lone header followed by A5. */
  lemma StuckGarbage()
    ensures After(IDLE, [HEADER]).touchState == 1
    ensures After(IDLE, [HEADER, 0xA5]).touchState == 2 && After(IDLE, [HEADER, 0xA5]).pendingCmd == 0xA5
  {
    OneByte(IDLE, HEADER);
    TwoBytes(IDLE, HEADER, 0xA5);
  }

  /** The two decodable commands that do not synchronise: after this garbage no frame of the stream is ever read. */
  lemma NeverResynchronises(n: nat)
    ensures Visible(Events(After(IDLE, [HEADER]), Stream(Repeated(0xA5, n)))) == Touches(Repeated(0x5A, n))
    ensures Visible(Events(After(IDLE, [HEADER, 0xA5]), Stream(Repeated(0x5A, n)))) == Touches(Repeated(0xA5, n))
  {
    StuckGarbage();
    StuckStreams(After(IDLE, [HEADER]), n);
    StuckStreams(After(IDLE, [HEADER, 0xA5]), n);
  }

  /** After this garbage n + 1 frames of c are read to the end, the first frame perhaps excepted. */
  predicate RecoversWithin(garbage: seq<uint8>, c: uint8, n: nat) {
    var seen := Visible(Events(After(IDLE, garbage), Stream(Repeated(c, n + 1))));
    n <= |seen| <= n + 1 && seen[|seen| - n..] == Touches(Repeated(c, n))
  }

  /** Whatever came before, and however long the stream. */
  ghost predicate RecoversAlways(c: uint8) {
    forall garbage: seq<uint8>, n: nat :: RecoversWithin(garbage, c, n)
  }

  lemma {:induction false} RepeatedIn(c: uint8, n: nat)
    ensures forall x :: x in Repeated(c, n) ==> x == c
    ensures |Repeated(c, n)| == n
  {
    if n > 0 {
      RepeatedIn(c, n - 1);
    }
  }

  lemma SynchronisesRecovers(garbage: seq<uint8>, c: uint8, n: nat)
    requires Synchronises(c)
    ensures RecoversWithin(garbage, c, n)
  {
    hide Events, Visible, After, Frame, Synchronises, Stream;
    var cmds := Repeated(c, n + 1);
    RepeatedIn(c, n + 1);
    RepeatedIn(c, n);
    SelfSynchronises(garbage, cmds);
    assert cmds[1..] == Repeated(c, n) && cmds[0] == c;
  }

  /** Two frames of a command that does not synchronise, read after some garbage, do not end with its touch. */
  lemma OthersFail(c: uint8) returns (garbage: seq<uint8>)
    requires !Synchronises(c)
    ensures !RecoversWithin(garbage, c, 1)
  {
    hide Events, Visible, After, Frame, Synchronises, Stream;
    garbage := if c == 0xA5 then [HEADER] else if c == 0x5A then [HEADER, 0xA5] else [];
    TwoFrames(c);
    var seen := Visible(Events(After(IDLE, garbage), Stream(Repeated(c, 1 + 1))));
    assert Repeated(c, 1)[1..] == [];
    assert Touches(Repeated(c, 1)) == [Touch(c)];
    LastOfSuffix(seen, Touch(c));
  }

  lemma LastOfSuffix(seen: seq<Event>, e: Event)
    ensures |seen| >= 1 && seen[|seen| - 1..] == [e] ==> seen[|seen| - 1] == e
  {
  }

  lemma TwoFrames(c: uint8)
    requires !Synchronises(c)
    ensures var garbage := if c == 0xA5 then [HEADER] else if c == 0x5A then [HEADER, 0xA5] else [];
            var seen := Visible(Events(After(IDLE, garbage), Stream(Repeated(c, 2))));
            seen == [] || seen[|seen| - 1] != Touch(c)
  {
    hide Events, Visible, After, Frame, Stream;
    DecodableBytes(c);
    if c == 0xA5 || c == 0x5A {
      NeverResynchronises(2);
      TwoTouches(0x5A);
      TwoTouches(0xA5);
    } else {
      NothingFed(IDLE);
      StreamFromRest(IDLE, Repeated(c, 2));
      TwoEvents(c);
    }
  }

  lemma TwoTouches(c: uint8)
    ensures Touches(Repeated(c, 2)) == [Touch(c), Touch(c)]
  {
    assert Repeated(c, 2)[1..] == Repeated(c, 1) && Repeated(c, 1)[1..] == [];
  }

  lemma TwoEvents(c: uint8)
    ensures StreamEvents(Repeated(c, 2)) == FrameEvents(c) + FrameEvents(c)
  {
    assert Repeated(c, 2)[1..] == Repeated(c, 1) && Repeated(c, 1)[1..] == [];
  }

  /** A command's stream recovers after every garbage exactly if the command synchronises. */
  lemma RecoversIffSynchronises(c: uint8)
    ensures RecoversAlways(c) <==> Synchronises(c)
  {
    hide RecoversWithin, Synchronises;
    if Synchronises(c) {
      forall garbage: seq<uint8>, n: nat
        ensures RecoversWithin(garbage, c, n)
      {
        SynchronisesRecovers(garbage, c, n);
      }
    } else {
      var garbage := OthersFail(c);
    }
  }

  lemma NothingFed(st: Rx)
    ensures After(st, []) == st && Visible(Events(st, [])) == []
  {
  }

  // --- The receiver in place ---

  /** The first touch among the events: all that one scan hands to its caller. */
  function FirstCommand(evs: seq<Event>): (r: Option<uint8>)
    ensures r == if Commands(evs) == [] then None else Some(Commands(evs)[0])
  {
    if evs == [] then None
    else if evs[0].Touch? then Some(evs[0].cmd)
    else FirstCommand(evs[1..])
  }

  class Receiver {
    var initialized: bool
    var touchState: uint8
    var pendingCmd: uint8
    var zeroRun: uint8
    var ffRun: uint8
    var hasCachedScreen: bool
    var resetPending: bool

    function State(): Rx
      reads this
    {
      Rx(touchState, pendingCmd, zeroRun, ffRun)
    }

    constructor ()
      ensures State() == IDLE && !initialized && !hasCachedScreen && !resetPending
    {
      initialized, hasCachedScreen, resetPending := false, false, false;
      touchState, pendingCmd, zeroRun, ffRun := 0, 0, 0, 0;
    }

    /** The first successful start begins with an empty automaton; later ones change nothing. */
    method Begin(driverReady: bool) returns (ok: bool)
      modifies this
      ensures ok == initialized == (old(initialized) || driverReady)
      ensures !old(initialized) && driverReady ==> State() == IDLE && !hasCachedScreen && !resetPending
      ensures old(initialized) || !driverReady ==>
                State() == old(State()) && hasCachedScreen == old(hasCachedScreen)
                && resetPending == old(resetPending)
    {
      if initialized {
        return true;
      }
      if !driverReady {
        return false;
      }
      initialized := true;
      hasCachedScreen := false;
      ClearState();
      resetPending := false;
      return true;
    }

    method ClearState()
      modifies `touchState, `pendingCmd, `zeroRun, `ffRun
      ensures State() == IDLE
    {
      touchState, pendingCmd, zeroRun, ffRun := 0, 0, 0, 0;
    }

    method ClassifyByte(b: uint8) returns (ev: Event)
      modifies `touchState, `pendingCmd, `zeroRun, `ffRun
      ensures (State(), ev) == Classify(old(State()), b)
    {
      if b == READY {
        ClearState();
        return Reset;
      }
      if b == 0x00 || b == 0xFF {
        touchState := 0;
        pendingCmd := 0;
        if b == 0x00 {
          if ffRun > 0 {
            ffRun := 0;
            zeroRun := 1;
          } else if zeroRun < 3 {
            zeroRun := zeroRun + 1;
          }
        } else {
          if zeroRun >= 3 {
            ffRun := (ffRun + 1) % 0x100;
            if ffRun >= 3 {
              ClearState();
              return Reset;
            }
          } else {
            ffRun := 0;
            zeroRun := 0;
          }
        }
        return Nothing;
      }
      zeroRun := 0;
      ffRun := 0;
      if touchState == 0 {
        if b == HEADER {
          touchState := 1;
        }
        return Nothing;
      } else if touchState == 1 {
        pendingCmd := b;
        touchState := 2;
        return Nothing;
      } else if touchState == 2 {
        touchState := 0;
        if b == Complement(pendingCmd) {
          return Touch(pendingCmd);
        }
        return Nothing;
      } else {
        touchState := 0;
        return Nothing;
      }
    }

    /** One scan of what the UART holds. */
    method ReadTouchCommand(buffer: seq<uint8>) returns (r: Option<uint8>)
      modifies this
      ensures initialized == old(initialized)
      ensures !initialized ==>
                r == None && State() == old(State())
                && hasCachedScreen == old(hasCachedScreen) && resetPending == old(resetPending)
      ensures initialized ==>
                var evs := Events(old(State()), buffer);
                && State() == After(old(State()), buffer)
                && r == FirstCommand(evs)
                && resetPending == (old(resetPending) || Reset in evs)
                && hasCachedScreen == (old(hasCachedScreen) && Reset !in evs)
    {
      r := None;
      if !initialized {
        return;
      }
      ghost var seen: seq<Event> := [];
      var i := 0;
      while i < |buffer|
        invariant 0 <= i <= |buffer| && initialized
        invariant State() == After(old(State()), buffer[..i])
        invariant seen == Events(old(State()), buffer[..i])
        invariant r == FirstCommand(seen)
        invariant resetPending == (old(resetPending) || Reset in seen)
        invariant hasCachedScreen == (old(hasCachedScreen) && Reset !in seen)
      {
        FeedSnoc(old(State()), buffer[..i], buffer[i]);
        assert buffer[..i + 1] == buffer[..i] + [buffer[i]];
        var ev := ClassifyByte(buffer[i]);
        FirstCommandSnoc(seen, ev);
        seen := seen + [ev];
        if ev == Reset {
          hasCachedScreen := false;
          resetPending := true;
        } else if ev.Touch? && r == None {
          r := Some(ev.cmd);
        }
        i := i + 1;
      }
      assert buffer[..i] == buffer;
    }

    method TakeResetFlag() returns (pending: bool)
      modifies `resetPending
      ensures pending == old(resetPending) && !resetPending
    {
      pending := resetPending;
      resetPending := false;
    }
  }

  lemma FirstCommandSnoc(evs: seq<Event>, ev: Event)
    ensures FirstCommand(evs + [ev]) ==
            if FirstCommand(evs) == None && ev.Touch? then Some(ev.cmd) else FirstCommand(evs)
  {
    CommandsConcat(evs, [ev]);
    assert [ev][1..] == [];
  }

  /** A scan returns the first command of a stream; the others in the same buffer are dropped. */
  lemma ScanTakesFirst(st: Rx, cmds: seq<uint8>)
    requires st.touchState == 0 && cmds != []
    requires forall c :: c in cmds ==> Decodable(c)
    ensures FirstCommand(Events(st, Stream(cmds))) == Some(cmds[0])
  {
    hide Events, Frame, Decodable;
    FramingRoundTrip(st, cmds);
    FirstVisible(Events(st, Stream(cmds)));
  }

  lemma {:induction false} FirstVisible(evs: seq<Event>)
    ensures Visible(evs) != [] && Visible(evs)[0].Touch? ==> FirstCommand(evs) == Some(Visible(evs)[0].cmd)
  {
    if evs != [] && evs[0].Nothing? {
      FirstVisible(evs[1..]);
    }
  }
}
