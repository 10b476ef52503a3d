/** One iteration of the transmit loop (main.py:181-218) and the loop's
    teardown (main.py:220-221), as a function of the state before it, the
    number of frames, the clock reading and the key `cv2.waitKey` returned. */
module Transmitter {
  import opened BigEndian
  import opened Packets
  import opened Cyclic
  import opened Playback
  import opened Optional

  const AUD_SYNC_MILLIS: int := 250

  /** The new state, the packets sent in order, and whether the loop goes on. */
  datatype TxResult = TxResult(clock: Clock, sent: seq<Packet>, running: bool)

  /** A tick in which nothing raises: the frame exists and both payloads fit
      `struct.pack(">Q", …)`. */
  predicate TxSafe(c: Clock, frameCount: nat) {
    c.frameIdx < frameCount && c.frameIdx < U64_LIMIT && c.posit < U64_LIMIT
  }

  /** The audio sync interval has elapsed. */
  predicate AudioDue(c: Clock, now: int) {
    now - c.prevMillis > AUD_SYNC_MILLIS
  }

  /** Leaving the loop, by a quit key or an exception, destroys the window. */
  function TxStop(c: Clock, sent: seq<Packet>): (r: TxResult)
    ensures !r.running && !r.clock.isWindowShowing && r.clock.shown == None && r.sent == sent
    ensures r.clock.(isWindowShowing := c.isWindowShowing, shown := c.shown) == c
  {
    TxResult(HideWindow(c), sent, false)
  }

  /** The sync packets of a tick: always the frame index, then the audio
      position when the interval has elapsed and the music is playing. */
  function SyncPackets(c: Clock, now: int): (r: seq<Packet>)
    ensures 1 <= |r| <= 2 && r[0] == VideoSync(c.frameIdx)
    ensures |r| == 2 <==> AudioDue(c, now) && c.musicPlay
    ensures |r| == 2 ==> r[1] == AudioSync(c.posit)
  {
    [VideoSync(c.frameIdx)] + (if AudioDue(c, now) && c.musicPlay then [AudioSync(c.posit)] else [])
  }

  /** The audio sync timer restarts whenever the interval has elapsed. */
  function AfterSync(c: Clock, now: int): (r: Clock)
    ensures r.(prevMillis := c.prevMillis) == c
    ensures AudioDue(c, now) ==> r.prevMillis == now
    ensures !AudioDue(r, now)
  {
    if AudioDue(c, now) then c.(prevMillis := now) else c
  }

  /** Show the current frame, then step to the next one. */
  function Advance(c: Clock, frameCount: nat): (r: Clock)
    ensures r.isWindowShowing && r.shown == Some(c.frameIdx)
    ensures frameCount > 0 ==> r.frameIdx < frameCount
    ensures r.posit == c.posit && r.musicPlay == c.musicPlay && r.prevMillis == c.prevMillis
  {
    ShowImg(c, c.frameIdx).(frameIdx := Next(c.frameIdx, frameCount))
  }

  /** The mute and fullscreen keys, for a key that does not quit. */
  function ApplyKey(c: Clock, key: int): (r: Clock)
    ensures r.musicPlay == (c.musicPlay != IsMuteKey(key))
    ensures r.wndIsFS == (c.wndIsFS != IsFullscreenKey(key))
    ensures r.(musicPlay := c.musicPlay, wndIsFS := c.wndIsFS) == c
  {
    var muted := if IsMuteKey(key) then c.(musicPlay := !c.musicPlay) else c;
    if IsFullscreenKey(key) then SetFullscreen(muted, !muted.wndIsFS) else muted
  }

  function TxTick(c: Clock, frameCount: nat, now: int, key: int): (r: TxResult)
    ensures forall p :: p in r.sent ==> p.Payload() < U64_LIMIT
    ensures |r.sent| <= 2
    ensures !r.running ==> !r.clock.isWindowShowing
  {
    if c.frameIdx >= frameCount || c.frameIdx >= U64_LIMIT then
      // allFrames[frameIdx] raises IndexError, or packing the index raises
      // struct.error: the except branch ends the loop before anything is sent.
      TxStop(c, [])
    else if AudioDue(c, now) && c.musicPlay && c.posit >= U64_LIMIT then
      // Packing the audio position raises after the video sync went out.
      TxStop(c, [VideoSync(c.frameIdx)])
    else
      var advanced := Advance(AfterSync(c, now), frameCount);
      if IsTxQuitKey(key) then TxStop(advanced, SyncPackets(c, now))
      else TxResult(ApplyKey(advanced, key), SyncPackets(c, now), true)
  }

  /** Every tick first sends a VideoSync carrying the frame index it shows,
      the value before the increment, and then moves to the next frame of
      the loop, wrapping at the end. */
  lemma TxVideoSyncAndWrap(c: Clock, frameCount: nat, now: int, key: int)
    requires TxSafe(c, frameCount)
    ensures TxTick(c, frameCount, now, key).sent[0] == VideoSync(c.frameIdx)
    ensures TxTick(c, frameCount, now, key).clock.shown == (if IsTxQuitKey(key) then None else Some(c.frameIdx))
    ensures TxTick(c, frameCount, now, key).clock.frameIdx == (c.frameIdx + 1) % frameCount
    ensures TxTick(c, frameCount, now, key).clock.frameIdx < frameCount
  {
    NextIsModular(c.frameIdx, frameCount);
  }

  /** AudioSync cadence: an AudioSync with the current position follows the
      VideoSync exactly when more than 250 ms have passed and the music is
      playing; the interval restarts whenever it has elapsed, muted or not. */
  lemma TxAudioCadence(c: Clock, frameCount: nat, now: int, key: int)
    requires TxSafe(c, frameCount)
    ensures TxTick(c, frameCount, now, key).sent ==
              [VideoSync(c.frameIdx)] + (if AudioDue(c, now) && c.musicPlay then [AudioSync(c.posit)] else [])
    ensures TxTick(c, frameCount, now, key).clock.prevMillis == (if AudioDue(c, now) then now else c.prevMillis)
    ensures TxTick(c, frameCount, now, key).clock.posit == c.posit
  {
  }

  /** Keys: a quit key ends the loop with the window destroyed; 'm'/'M'
      toggles the music; 'f'/'F' toggles fullscreen; any other key leaves
      the state as if no key had been pressed. */
  lemma TxKeys(c: Clock, frameCount: nat, now: int, key: int)
    requires TxSafe(c, frameCount)
    ensures TxTick(c, frameCount, now, key).running <==> !IsTxQuitKey(key)
    ensures IsTxQuitKey(key) ==> !TxTick(c, frameCount, now, key).clock.isWindowShowing
    ensures !IsTxQuitKey(key) ==>
              TxTick(c, frameCount, now, key).clock.musicPlay == (c.musicPlay != IsMuteKey(key))
    ensures !IsTxQuitKey(key) ==>
              TxTick(c, frameCount, now, key).clock.wndIsFS ==
              (TxTick(c, frameCount, now, NO_KEY).clock.wndIsFS != IsFullscreenKey(key))
    ensures !IsTxQuitKey(key) && !IsMuteKey(key) && !IsFullscreenKey(key) ==>
              TxTick(c, frameCount, now, key) == TxTick(c, frameCount, now, NO_KEY)
  {
  }

  /** A tick that cannot read its frame or pack its index sends nothing and
      ends the loop with the window destroyed and the index unchanged. */
  lemma TxBadIndexStops(c: Clock, frameCount: nat, now: int, key: int)
    requires c.frameIdx >= frameCount
    ensures TxTick(c, frameCount, now, key) == TxResult(HideWindow(c), [], false)
  {
  }

  /** The time and key of one loop iteration. */
  datatype Tick = Tick(now: int, key: int)

  /** The loop run over a sequence of iterations, stopping at the first one
      that ends it. */
  function TxRun(c: Clock, frameCount: nat, ticks: seq<Tick>): (r: TxResult)
    ensures forall p :: p in r.sent ==> p.Payload() < U64_LIMIT
    ensures |r.sent| <= 2 * |ticks|
    ensures !r.running ==> !r.clock.isWindowShowing
    decreases |ticks|
  {
    if ticks == [] then TxResult(c, [], true)
    else
      var first := TxTick(c, frameCount, ticks[0].now, ticks[0].key);
      if !first.running then first
      else
        var rest := TxRun(first.clock, frameCount, ticks[1..]);
        TxResult(rest.clock, first.sent + rest.sent, rest.running)
  }

  /** The frame indices carried by the VideoSync packets, in order. */
  function VideoFrames(sent: seq<Packet>): (r: seq<nat>)
    ensures |r| <= |sent|
  {
    if sent == [] then []
    else (if sent[0].VideoSync? then [sent[0].frameIdx] else []) + VideoFrames(sent[1..])
  }

  lemma {:induction false} VideoFramesAppend(a: seq<Packet>, b: seq<Packet>)
    ensures VideoFrames(a + b) == VideoFrames(a) + VideoFrames(b)
  {
    if a != [] {
      assert (a + b)[0] == a[0];
      assert (a + b)[1..] == a[1..] + b;
      VideoFramesAppend(a[1..], b);
    } else {
      assert a + b == b;
    }
  }

  predicate NoQuit(ticks: seq<Tick>) {
    forall i :: 0 <= i < |ticks| ==> !IsTxQuitKey(ticks[i].key)
  }

  /** One tick contributes exactly one VideoSync. */
  lemma TxTickVideoFrames(c: Clock, frameCount: nat, now: int, key: int)
    requires TxSafe(c, frameCount)
    ensures VideoFrames(TxTick(c, frameCount, now, key).sent) == [c.frameIdx]
  {
    TxAudioCadence(c, frameCount, now, key);
    var sent := TxTick(c, frameCount, now, key).sent;
    assert sent[1..] == [] || sent[1..] == [AudioSync(c.posit)];
    assert VideoFrames(sent[1..]) == [];
  }

  /** A tick that keeps the loop running is followed by the rest of the run. */
  lemma {:induction false} TxRunUnfold(c: Clock, frameCount: nat, ticks: seq<Tick>)
    requires ticks != [] && TxTick(c, frameCount, ticks[0].now, ticks[0].key).running
    ensures TxRun(c, frameCount, ticks) ==
              TxResult(TxRun(TxTick(c, frameCount, ticks[0].now, ticks[0].key).clock, frameCount, ticks[1..]).clock,
                       TxTick(c, frameCount, ticks[0].now, ticks[0].key).sent
                       + TxRun(TxTick(c, frameCount, ticks[0].now, ticks[0].key).clock, frameCount, ticks[1..]).sent,
                       TxRun(TxTick(c, frameCount, ticks[0].now, ticks[0].key).clock, frameCount, ticks[1..]).running)
  {
  }

  /** What one tick without a quit key hands to the next. */
  lemma TxTickCycles(c: Clock, frameCount: nat, now: int, key: int)
    requires TxSafe(c, frameCount) && frameCount <= U64_LIMIT && !IsTxQuitKey(key)
    ensures TxTick(c, frameCount, now, key).running
    ensures TxSafe(TxTick(c, frameCount, now, key).clock, frameCount)
    ensures TxTick(c, frameCount, now, key).clock.frameIdx == Next(c.frameIdx, frameCount)
    ensures VideoFrames(TxTick(c, frameCount, now, key).sent) == [c.frameIdx]
  {
    TxVideoSyncAndWrap(c, frameCount, now, key);
    TxKeys(c, frameCount, now, key);
    TxTickVideoFrames(c, frameCount, now, key);
    TxAudioCadence(c, frameCount, now, key);
  }

  /** A safe tick without a quit key: the run is that tick followed by the
      run of the remaining ticks from the state it leaves, which is safe
      again and one frame on. */
  lemma {:induction false} TxRunStep(c: Clock, frameCount: nat, ticks: seq<Tick>)
    requires TxSafe(c, frameCount) && frameCount <= U64_LIMIT
    requires ticks != [] && !IsTxQuitKey(ticks[0].key)
    ensures TxSafe(TxTick(c, frameCount, ticks[0].now, ticks[0].key).clock, frameCount)
    ensures TxTick(c, frameCount, ticks[0].now, ticks[0].key).clock.frameIdx == Next(c.frameIdx, frameCount)
    ensures TxRun(c, frameCount, ticks).running ==
              TxRun(TxTick(c, frameCount, ticks[0].now, ticks[0].key).clock, frameCount, ticks[1..]).running
    ensures TxRun(c, frameCount, ticks).clock ==
              TxRun(TxTick(c, frameCount, ticks[0].now, ticks[0].key).clock, frameCount, ticks[1..]).clock
    ensures VideoFrames(TxRun(c, frameCount, ticks).sent) ==
              [c.frameIdx] + VideoFrames(TxRun(TxTick(c, frameCount, ticks[0].now, ticks[0].key).clock, frameCount, ticks[1..]).sent)
  {
    var first := TxTick(c, frameCount, ticks[0].now, ticks[0].key);
    TxTickCycles(c, frameCount, ticks[0].now, ticks[0].key);
    TxRunUnfold(c, frameCount, ticks);
    VideoFramesAppend(first.sent, TxRun(first.clock, frameCount, ticks[1..]).sent);
  }

  /** Only a quit key ends a loop whose ticks are safe. */
  lemma {:induction false} TxRunKeepsRunning(c: Clock, frameCount: nat, ticks: seq<Tick>)
    requires TxSafe(c, frameCount) && frameCount <= U64_LIMIT
    requires NoQuit(ticks)
    ensures TxRun(c, frameCount, ticks).running
    decreases |ticks|
  {
    if ticks != [] {
      TxRunStep(c, frameCount, ticks);
      assert NoQuit(ticks[1..]);
      TxRunKeepsRunning(TxTick(c, frameCount, ticks[0].now, ticks[0].key).clock, frameCount, ticks[1..]);
    }
  }

  /** Without a quit key the index ends |ticks| steps further on. */
  lemma {:induction false} TxRunIndex(c: Clock, frameCount: nat, ticks: seq<Tick>)
    requires TxSafe(c, frameCount) && frameCount <= U64_LIMIT
    requires NoQuit(ticks)
    ensures TxRun(c, frameCount, ticks).clock.frameIdx == Steps(c.frameIdx, |ticks|, frameCount)
    decreases |ticks|
  {
    if ticks != [] {
      TxRunStep(c, frameCount, ticks);
      assert NoQuit(ticks[1..]);
      TxRunIndex(TxTick(c, frameCount, ticks[0].now, ticks[0].key).clock, frameCount, ticks[1..]);
    }
  }

  /** Without a quit key, the VideoSync packets carry the indices the loop
      visits, one per iteration. */
  lemma {:induction false} TxRunFrames(c: Clock, frameCount: nat, ticks: seq<Tick>)
    requires TxSafe(c, frameCount) && frameCount <= U64_LIMIT
    requires NoQuit(ticks)
    ensures VideoFrames(TxRun(c, frameCount, ticks).sent) == Cycle(c.frameIdx, |ticks|, frameCount)
    decreases |ticks|
  {
    if ticks != [] {
      TxRunStep(c, frameCount, ticks);
      assert NoQuit(ticks[1..]);
      TxRunFrames(TxTick(c, frameCount, ticks[0].now, ticks[0].key).clock, frameCount, ticks[1..]);
    }
  }

  /** Wrap invariant: without a quit key the loop keeps running, the VideoSync
      packets carry start, start + 1, … modulo the number of frames, one per
      iteration, and the index ends |ticks| frames further on, so it cycles
      0..N-1..0 without skipping or leaving [0, N). */
  lemma TxRunCycles(c: Clock, frameCount: nat, ticks: seq<Tick>)
    requires TxSafe(c, frameCount) && frameCount <= U64_LIMIT
    requires NoQuit(ticks)
    ensures TxRun(c, frameCount, ticks).running
    ensures TxRun(c, frameCount, ticks).clock.frameIdx == (c.frameIdx + |ticks|) % frameCount
    ensures VideoFrames(TxRun(c, frameCount, ticks).sent) ==
              seq(|ticks|, i => (c.frameIdx + i) % frameCount)
  {
    var r := TxRun(c, frameCount, ticks);
    var k := |ticks|;
    TxRunKeepsRunning(c, frameCount, ticks);
    TxRunIndex(c, frameCount, ticks);
    StepsIsModular(c.frameIdx, k, frameCount);
    assert r.clock.frameIdx == (c.frameIdx + k) % frameCount;
    TxRunFrames(c, frameCount, ticks);
    CycleIsModular(c.frameIdx, k, frameCount);
    assert VideoFrames(r.sent) == seq(k, i => (c.frameIdx + i) % frameCount);
  }
}
