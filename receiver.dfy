/** One iteration of the receive loop (main.py:250-275) and its teardown
    (main.py:277-279). The receive call either yields a datagram or times
    out after 500 ms; the clock reading and the key polled afterwards are
    parameters. */
module Receiver {
  import opened BigEndian
  import opened Optional
  import opened Packets
  import opened Playback

  const RECV_MUSIC_TIMEOUT: int := 500

  /** What `sock.recvfrom` produced. */
  datatype Event = Datagram(data: seq<Byte>) | RecvTimeout

  datatype RxResult = RxResult(clock: Clock, running: bool)

  /** main.py:254-259: a VideoSync sets only the frame index; an AudioSync
      sets the position, starts the music and restarts the audio timer;
      anything else changes nothing. */
  function ApplyPacket(c: Clock, p: Option<Packet>, now: int): (r: Clock)
    ensures r.isWindowShowing == c.isWindowShowing && r.wndIsFS == c.wndIsFS && r.shown == c.shown
    ensures p.None? ==> r == c
    ensures r.musicPlay <==> c.musicPlay || (p.Some? && p.value.AudioSync?)
    ensures r.frameIdx != c.frameIdx ==> p == Some(VideoSync(r.frameIdx))
    ensures r.posit != c.posit ==> p == Some(AudioSync(r.posit))
  {
    match p
    case Some(VideoSync(f)) => c.(frameIdx := f)
    case Some(AudioSync(pos)) => c.(musicPlay := true, prevMillis := now, posit := pos)
    case None => c
  }

  /** The frame index `showImg(allFrames[frameIdx])` will look up. */
  function FrameAfter(c: Clock, data: seq<Byte>): nat
    requires Framed(data)
  {
    ApplyPacket(c, Parse(data), 0).frameIdx
  }

  /** An iteration that does not raise: only `socket.timeout` is caught, so a
      known tag with fewer than eight payload bytes (struct.error) and a frame
      index outside the list (IndexError) would end the program. */
  predicate RxDefined(c: Clock, frameCount: nat, ev: Event) {
    ev.Datagram? ==> Framed(ev.data) && FrameAfter(c, ev.data) < frameCount
  }

  /** The audio has gone stale: no AudioSync for more than 500 ms. */
  predicate Stale(c: Clock, now: int) {
    now - c.prevMillis > RECV_MUSIC_TIMEOUT
  }

  /** The try block and its `socket.timeout` handler. */
  function Receive(c: Clock, ev: Event, now: int): (r: Clock)
    requires ev.Datagram? ==> Framed(ev.data)
    ensures ev.Datagram? ==> r.isWindowShowing && r.shown == Some(r.frameIdx)
    ensures ev.RecvTimeout? ==>
              !r.isWindowShowing && !r.musicPlay && r.frameIdx == c.frameIdx && r.posit == c.posit
    ensures r.musicPlay ==> now - r.prevMillis <= RECV_MUSIC_TIMEOUT
  {
    match ev
    case Datagram(data) =>
      var applied := ApplyPacket(c, Parse(data), now);
      var checked := if Stale(applied, now) then applied.(musicPlay := false, prevMillis := now) else applied;
      ShowImg(checked, checked.frameIdx)
    case RecvTimeout =>
      HideWindow(c.(musicPlay := false))
  }

  /** One iteration: receive, then poll the keyboard. */
  function RxStep(c: Clock, frameCount: nat, ev: Event, now: int, key: int): (r: RxResult)
    requires RxDefined(c, frameCount, ev)
    ensures !r.running ==> !r.clock.musicPlay && !r.clock.isWindowShowing
  {
    var received := Receive(c, ev, now);
    if IsRxQuitKey(key) then RxResult(HideWindow(received.(musicPlay := false)), false)
    else if IsFullscreenKey(key) then RxResult(SetFullscreen(received, !received.wndIsFS), true)
    else RxResult(received, true)
  }

  /** A VideoSync moves the receiver to the transmitted frame and shows it;
      position and timer are untouched unless the audio has gone stale. */
  lemma RxVideoSync(c: Clock, frameCount: nat, data: seq<Byte>, now: int, key: int, f: nat)
    requires Framed(data) && Parse(data) == Some(VideoSync(f)) && f < frameCount
    ensures RxDefined(c, frameCount, Datagram(data))
    ensures RxStep(c, frameCount, Datagram(data), now, key).clock.frameIdx == f
    ensures RxStep(c, frameCount, Datagram(data), now, key).clock.posit == c.posit
    ensures RxStep(c, frameCount, Datagram(data), now, key).clock.musicPlay ==
              (c.musicPlay && !Stale(c, now) && !IsRxQuitKey(key))
    ensures RxStep(c, frameCount, Datagram(data), now, key).clock.prevMillis ==
              (if Stale(c, now) then now else c.prevMillis)
    ensures !IsRxQuitKey(key) ==> RxStep(c, frameCount, Datagram(data), now, key).clock.shown == Some(f)
  {
  }

  /** An AudioSync sets the position, starts the music and restarts the
      timer, and leaves the frame where it was. */
  lemma RxAudioSync(c: Clock, frameCount: nat, data: seq<Byte>, now: int, key: int, pos: nat)
    requires Framed(data) && Parse(data) == Some(AudioSync(pos)) && c.frameIdx < frameCount
    ensures RxDefined(c, frameCount, Datagram(data))
    ensures RxStep(c, frameCount, Datagram(data), now, key).clock.frameIdx == c.frameIdx
    ensures RxStep(c, frameCount, Datagram(data), now, key).clock.posit == pos
    ensures RxStep(c, frameCount, Datagram(data), now, key).clock.musicPlay == !IsRxQuitKey(key)
    ensures RxStep(c, frameCount, Datagram(data), now, key).clock.prevMillis == now
  {
  }

  /** A datagram without a known tag (a 5-byte datagram of zeros, say)
      changes neither frame nor position nor, unless the audio has gone
      stale, the music; the window is shown all the same. */
  lemma RxIgnoredDatagram(c: Clock, frameCount: nat, data: seq<Byte>, now: int, key: int)
    requires !HasHeader(data, VID_SYNC_HEADER) && !HasHeader(data, AUD_SYNC_HEADER)
    requires c.frameIdx < frameCount
    ensures RxDefined(c, frameCount, Datagram(data))
    ensures RxStep(c, frameCount, Datagram(data), now, key).clock.frameIdx == c.frameIdx
    ensures RxStep(c, frameCount, Datagram(data), now, key).clock.posit == c.posit
    ensures RxStep(c, frameCount, Datagram(data), now, key).clock.musicPlay ==
              (c.musicPlay && !Stale(c, now) && !IsRxQuitKey(key))
    ensures !IsRxQuitKey(key) ==> RxStep(c, frameCount, Datagram(data), now, key).clock.isWindowShowing
  {
  }

  /** Any datagram, once applied, stops music that has had no AudioSync for
      more than 500 ms and restarts the timer. */
  lemma RxStaleAudio(c: Clock, frameCount: nat, data: seq<Byte>, now: int, key: int)
    requires RxDefined(c, frameCount, Datagram(data))
    requires Stale(ApplyPacket(c, Parse(data), now), now)
    ensures !RxStep(c, frameCount, Datagram(data), now, key).clock.musicPlay
    ensures RxStep(c, frameCount, Datagram(data), now, key).clock.prevMillis == now
  {
  }

  /** A receive timeout mutes, destroys the window and freezes the frame. */
  lemma RxTimeoutIdles(c: Clock, frameCount: nat, now: int, key: int)
    ensures !RxStep(c, frameCount, RecvTimeout, now, key).clock.musicPlay
    ensures !RxStep(c, frameCount, RecvTimeout, now, key).clock.isWindowShowing
    ensures RxStep(c, frameCount, RecvTimeout, now, key).clock.frameIdx == c.frameIdx
    ensures RxStep(c, frameCount, RecvTimeout, now, key).clock.posit == c.posit
    ensures RxStep(c, frameCount, RecvTimeout, now, key).clock.prevMillis == c.prevMillis
  {
  }

  /** The receiver never advances the frame itself: the index changes only
      to the payload of a VideoSync, and stays inside the frame list. */
  lemma RxFrameOnlyFromVideoSync(c: Clock, frameCount: nat, ev: Event, now: int, key: int)
    requires RxDefined(c, frameCount, ev)
    ensures var r := RxStep(c, frameCount, ev, now, key);
      r.clock.frameIdx != c.frameIdx ==> ev.Datagram? && Parse(ev.data) == Some(VideoSync(r.clock.frameIdx))
    ensures c.frameIdx < frameCount ==> RxStep(c, frameCount, ev, now, key).clock.frameIdx < frameCount
  {
  }

  /** Keys: Esc and 'q' end the loop, which then mutes and destroys the
      window; 'Q' does not; 'f'/'F' toggles fullscreen. */
  lemma RxKeys(c: Clock, frameCount: nat, ev: Event, now: int, key: int)
    requires RxDefined(c, frameCount, ev)
    ensures RxStep(c, frameCount, ev, now, key).running <==> !IsRxQuitKey(key)
    ensures IsFullscreenKey(key) ==>
              RxStep(c, frameCount, ev, now, key).clock.wndIsFS == !Receive(c, ev, now).wndIsFS
    ensures !IsRxQuitKey(key) && !IsFullscreenKey(key) ==>
              RxStep(c, frameCount, ev, now, key).clock == Receive(c, ev, now)
  {
  }

  /** The receive call's outcome together with the clock reading and key of
      its iteration. */
  datatype Step = Step(ev: Event, now: int, key: int)

  /** Events the receiver survives from any state whose frame is in range. */
  predicate Deliverable(s: Step, frameCount: nat) {
    s.ev.Datagram? ==>
      Framed(s.ev.data) && (Parse(s.ev.data).Some? && Parse(s.ev.data).value.VideoSync? ==>
                              Parse(s.ev.data).value.frameIdx < frameCount)
  }

  /** The loop over a sequence of iterations, stopping at a quit key. */
  function RxRun(c: Clock, frameCount: nat, steps: seq<Step>): (r: RxResult)
    requires c.frameIdx < frameCount
    requires forall i :: 0 <= i < |steps| ==> Deliverable(steps[i], frameCount)
    ensures r.clock.frameIdx < frameCount
    decreases |steps|
  {
    if steps == [] then RxResult(c, true)
    else
      assert Deliverable(steps[0], frameCount);
      var first := RxStep(c, frameCount, steps[0].ev, steps[0].now, steps[0].key);
      if !first.running then first
      else RxRun(first.clock, frameCount, steps[1..])
  }

  predicate IsAudioSyncStep(s: Step) {
    s.ev.Datagram? && Framed(s.ev.data) && Parse(s.ev.data).Some? && Parse(s.ev.data).value.AudioSync?
  }

  /** The frame index of the last VideoSync among the steps, or `otherwise`. */
  function LastVideoFrame(steps: seq<Step>, otherwise: nat): nat
    requires forall i :: 0 <= i < |steps| ==> steps[i].ev.Datagram? ==> Framed(steps[i].ev.data)
  {
    if steps == [] then otherwise
    else
      var s := steps[|steps| - 1];
      if s.ev.Datagram? && Parse(s.ev.data).Some? && Parse(s.ev.data).value.VideoSync? then
        Parse(s.ev.data).value.frameIdx
      else LastVideoFrame(steps[..|steps| - 1], otherwise)
  }

  predicate NoQuit(steps: seq<Step>) {
    forall i :: 0 <= i < |steps| ==> !IsRxQuitKey(steps[i].key)
  }

  /** Last write wins: after a run without a quit key the receiver is on the
      frame of the last VideoSync it got, or still on its own frame if none
      came. */
  lemma {:induction false} RxRunLastVideoWins(c: Clock, frameCount: nat, steps: seq<Step>)
    requires c.frameIdx < frameCount
    requires forall i :: 0 <= i < |steps| ==> Deliverable(steps[i], frameCount)
    requires NoQuit(steps)
    ensures RxRun(c, frameCount, steps).running
    ensures RxRun(c, frameCount, steps).clock.frameIdx == LastVideoFrame(steps, c.frameIdx)
    decreases |steps|
  {
    if steps != [] {
      var first := RxStep(c, frameCount, steps[0].ev, steps[0].now, steps[0].key);
      var c1 := first.clock;
      RxFrameOnlyFromVideoSync(c, frameCount, steps[0].ev, steps[0].now, steps[0].key);
      assert first.running;
      RxRunLastVideoWins(c1, frameCount, steps[1..]);
      LastVideoFrameShift(steps, c.frameIdx, c1.frameIdx);
    }
  }

  /** Splitting off the first step: its own VideoSync, if any, becomes the
      fallback for the rest. */
  lemma {:induction false} LastVideoFrameShift(steps: seq<Step>, otherwise: nat, afterFirst: nat)
    requires |steps| > 0
    requires forall i :: 0 <= i < |steps| ==> steps[i].ev.Datagram? ==> Framed(steps[i].ev.data)
    requires afterFirst == LastVideoFrame(steps[..1], otherwise)
    ensures LastVideoFrame(steps[1..], afterFirst) == LastVideoFrame(steps, otherwise)
    decreases |steps|
  {
    if |steps| > 1 {
      var init := steps[..|steps| - 1];
      assert init[..1] == steps[..1];
      assert steps[1..][..|steps| - 2] == init[1..];
      assert steps[1..][|steps| - 2] == steps[|steps| - 1];
      LastVideoFrameShift(init, otherwise, afterFirst);
    }
  }

  /** One step without an AudioSync: the music can only stop, and if it is
      still playing afterwards the step was a datagram within 500 ms of the
      last audio sync, the loop goes on and the sync time is unchanged. */
  lemma RxQuietStep(c: Clock, frameCount: nat, s: Step)
    requires c.frameIdx < frameCount && Deliverable(s, frameCount) && !IsAudioSyncStep(s)
    ensures !c.musicPlay ==> !RxStep(c, frameCount, s.ev, s.now, s.key).clock.musicPlay
    ensures RxStep(c, frameCount, s.ev, s.now, s.key).clock.musicPlay ==>
              && RxStep(c, frameCount, s.ev, s.now, s.key).running
              && c.musicPlay
              && s.ev.Datagram? && s.now - c.prevMillis <= RECV_MUSIC_TIMEOUT
              && RxStep(c, frameCount, s.ev, s.now, s.key).clock.prevMillis == c.prevMillis
  {
  }

  /** The run is its first step followed, unless that step quit, by the run
      of the rest. */
  lemma {:induction false} RxRunUnfold(c: Clock, frameCount: nat, steps: seq<Step>)
    requires c.frameIdx < frameCount && steps != []
    requires forall i :: 0 <= i < |steps| ==> Deliverable(steps[i], frameCount)
    ensures Deliverable(steps[0], frameCount)
    ensures RxStep(c, frameCount, steps[0].ev, steps[0].now, steps[0].key).clock.frameIdx < frameCount
    ensures forall i :: 0 <= i < |steps[1..]| ==> Deliverable(steps[1..][i], frameCount)
    ensures RxRun(c, frameCount, steps) ==
              if !RxStep(c, frameCount, steps[0].ev, steps[0].now, steps[0].key).running
              then RxStep(c, frameCount, steps[0].ev, steps[0].now, steps[0].key)
              else RxRun(RxStep(c, frameCount, steps[0].ev, steps[0].now, steps[0].key).clock, frameCount, steps[1..])
  {
    assert Deliverable(steps[0], frameCount);
  }

  /** Stale-audio rule over a run without AudioSync: if the music is still
      playing at the end, it was playing at the start, no receive timed out,
      and every datagram came within 500 ms of the last audio sync. So
      VideoSync traffic alone cannot keep the music going for more than
      500 ms. */
  lemma {:induction false} RxRunMusicFades(c: Clock, frameCount: nat, steps: seq<Step>)
    requires c.frameIdx < frameCount
    requires forall i :: 0 <= i < |steps| ==> Deliverable(steps[i], frameCount)
    requires forall i :: 0 <= i < |steps| ==> !IsAudioSyncStep(steps[i])
    requires RxRun(c, frameCount, steps).clock.musicPlay
    ensures c.musicPlay
    ensures forall i :: 0 <= i < |steps| ==>
              steps[i].ev.Datagram? && steps[i].now - c.prevMillis <= RECV_MUSIC_TIMEOUT
    ensures RxRun(c, frameCount, steps).clock.prevMillis == c.prevMillis
    decreases |steps|
  {
    if steps != [] {
      var s := steps[0];
      RxRunUnfold(c, frameCount, steps);
      RxQuietStep(c, frameCount, s);
      var c1 := RxStep(c, frameCount, s.ev, s.now, s.key).clock;
      assert forall i :: 0 <= i < |steps[1..]| ==> !IsAudioSyncStep(steps[1..][i]);
      if !c1.musicPlay {
        RxRunMusicOff(c1, frameCount, steps[1..]);
      }
      RxRunMusicFades(c1, frameCount, steps[1..]);
      forall i | 0 <= i < |steps|
        ensures steps[i].ev.Datagram? && steps[i].now - c.prevMillis <= RECV_MUSIC_TIMEOUT
      {
        if i > 0 {
          assert steps[i] == steps[1..][i - 1];
        }
      }
    }
  }

  /** Once muted, the receiver stays muted until an AudioSync arrives. */
  lemma {:induction false} RxRunMusicOff(c: Clock, frameCount: nat, steps: seq<Step>)
    requires c.frameIdx < frameCount
    requires forall i :: 0 <= i < |steps| ==> Deliverable(steps[i], frameCount)
    requires forall i :: 0 <= i < |steps| ==> !IsAudioSyncStep(steps[i])
    requires !c.musicPlay
    ensures !RxRun(c, frameCount, steps).clock.musicPlay
    decreases |steps|
  {
    if steps != [] {
      var s := steps[0];
      RxRunUnfold(c, frameCount, steps);
      RxQuietStep(c, frameCount, s);
      var first := RxStep(c, frameCount, s.ev, s.now, s.key);
      if first.running {
        assert forall i :: 0 <= i < |steps[1..]| ==> !IsAudioSyncStep(steps[1..][i]);
        RxRunMusicOff(first.clock, frameCount, steps[1..]);
      }
    }
  }
}
