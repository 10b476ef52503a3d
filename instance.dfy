/** The running program: the module-level globals of main.py as the fields
    of one object, updated in place by the transmit tick, the receive step,
    the audio callback and the window helpers. Sending appends the datagram
    to `outbox`; receiving is given as an Event. */
module Instance {
  import opened BigEndian
  import opened Optional
  import opened Packets
  import opened Cyclic
  import opened Playback
  import opened Transmitter
  import opened Receiver
  import opened Audio

  /** `outdata[start:start + len(src)] = src`. */
  method CopyInto(a: array<Byte>, start: nat, src: seq<Byte>)
    requires start + |src| <= a.Length
    modifies a
    ensures a[..] == old(a[..start]) + src + old(a[start + |src|..])
  {
    var i := 0;
    while i < |src|
      invariant 0 <= i <= |src|
      invariant forall k :: 0 <= k < start ==> a[k] == old(a[k])
      invariant forall k :: 0 <= k < i ==> a[start + k] == src[k]
      invariant forall k :: start + i <= k < a.Length ==> a[k] == old(a[k])
    {
      a[start + i] := src[i];
      i := i + 1;
    }
    assert a[..] == old(a[..start]) + src + old(a[start + |src|..]);
  }

  /** Fill the whole of `a` with x followed by y. */
  method FillWith(a: array<Byte>, x: seq<Byte>, y: seq<Byte>)
    requires |x| + |y| == a.Length
    modifies a
    ensures a[..] == x + y
  {
    CopyInto(a, 0, x);
    assert a[..|x|] == x;
    CopyInto(a, |x|, y);
    assert a[..] == x + y;
  }

  class Instance {
    /** `audioData` once `loadMusic` has filled it, and `len(allFrames)`. */
    const audioData: seq<Byte>
    const frameCount: nat

    var frameIdx: nat
    var posit: nat
    var musicPlay: bool
    var prevMillis: int
    var isWindowShowing: bool
    var wndIsFS: bool
    var shown: Option<nat>

    /** Datagrams sent to the multicast group, oldest first. */
    var outbox: seq<seq<Byte>>

    function State(): Clock
      reads this
    {
      Clock(frameIdx, posit, musicPlay, prevMillis, isWindowShowing, wndIsFS, shown)
    }

    constructor (audioData: seq<Byte>, frameCount: nat)
      ensures this.audioData == audioData && this.frameCount == frameCount
      ensures State() == INITIAL && outbox == []
    {
      this.audioData := audioData;
      this.frameCount := frameCount;
      frameIdx, posit, musicPlay, prevMillis := 0, 0, false, 0;
      isWindowShowing, wndIsFS, shown := false, false, None;
      outbox := [];
    }

    /** main.py:177-179: the transmitter starts the music and the audio
        sync timer. */
    method StartTransmitting(now: int)
      modifies this
      ensures State() == old(State()).(musicPlay := true, prevMillis := now)
      ensures outbox == old(outbox)
    {
      musicPlay := true;
      prevMillis := now;
    }

    /** main.py:248: the receiver starts its stale-audio timer. */
    method StartReceiving(now: int)
      modifies this
      ensures State() == old(State()).(prevMillis := now)
      ensures outbox == old(outbox)
    {
      prevMillis := now;
    }

    method SetFullscreen(isFullscreen: bool)
      modifies this
      ensures State() == Playback.SetFullscreen(old(State()), isFullscreen)
      ensures outbox == old(outbox)
    {
      wndIsFS := isFullscreen;
    }

    method ShowImg(frame: nat)
      modifies this
      ensures State() == Playback.ShowImg(old(State()), frame)
      ensures outbox == old(outbox)
    {
      if !isWindowShowing {
        SetFullscreen(DEFAULT_FULLSCREEN);
        isWindowShowing := true;
      }
      shown := Some(frame);
    }

    method DestroyWindow()
      modifies this
      ensures State() == HideWindow(old(State()))
      ensures outbox == old(outbox)
    {
      isWindowShowing := false;
      shown := None;
    }

    method Send(p: Packet)
      requires p.Payload() < U64_LIMIT
      modifies this
      ensures State() == old(State())
      ensures outbox == old(outbox) + [Encode(p)]
    {
      outbox := outbox + [Encode(p)];
    }

    /** main.py:186-195: the video sync, then the audio sync when it is due;
        false when packing the audio position raises. */
    method SendSyncs(now: int) returns (ok: bool)
      requires frameIdx < U64_LIMIT
      modifies this
      ensures ok == !(AudioDue(old(State()), now) && old(musicPlay) && old(posit) >= U64_LIMIT)
      ensures ok ==> State() == AfterSync(old(State()), now)
      ensures ok ==> outbox == old(outbox) + EncodeAll(SyncPackets(old(State()), now))
      ensures !ok ==> State() == old(State())
      ensures !ok ==> outbox == old(outbox) + EncodeAll([VideoSync(old(frameIdx))])
    {
      Send(VideoSync(frameIdx));
      ok := true;
      if now - prevMillis > AUD_SYNC_MILLIS {
        if musicPlay {
          if posit >= U64_LIMIT {
            return false;
          }
          Send(AudioSync(posit));
        }
        prevMillis := now;
      }
    }

    /** main.py:197-203: show the frame, then step to the next one. */
    method AdvanceFrame()
      modifies this
      ensures State() == Advance(old(State()), frameCount)
      ensures outbox == old(outbox)
    {
      ShowImg(frameIdx);
      frameIdx := frameIdx + 1;
      if frameIdx >= frameCount {
        frameIdx := 0;
      }
    }

    /** main.py:209-212: the mute and fullscreen keys. */
    method HandleTxKey(key: int)
      modifies this
      ensures State() == ApplyKey(old(State()), key)
      ensures outbox == old(outbox)
    {
      if IsMuteKey(key) {
        musicPlay := !musicPlay;
      }
      if IsFullscreenKey(key) {
        SetFullscreen(!wndIsFS);
      }
    }

    /** One pass of the transmit loop, main.py:182-218, with the teardown of
        main.py:220-221 when the loop ends. */
    method TransmitTick(now: int, key: int) returns (running: bool)
      modifies this
      ensures State() == TxTick(old(State()), frameCount, now, key).clock
      ensures running == TxTick(old(State()), frameCount, now, key).running
      ensures outbox == old(outbox) + EncodeAll(TxTick(old(State()), frameCount, now, key).sent)
    {
      if frameIdx >= frameCount || frameIdx >= U64_LIMIT {
        DestroyWindow();
        return false;
      }
      var ok := SendSyncs(now);
      if !ok {
        DestroyWindow();
        return false;
      }
      AdvanceFrame();
      if IsTxQuitKey(key) {
        DestroyWindow();
        return false;
      }
      HandleTxKey(key);
      running := true;
    }

    /** main.py:252-269: one datagram, or the timeout that hides the window. */
    method ReceiveEvent(ev: Event, now: int)
      requires ev.Datagram? ==> Framed(ev.data)
      modifies this
      ensures State() == Receive(old(State()), ev, now)
      ensures outbox == old(outbox)
    {
      match ev {
        case Datagram(data) =>
          if HasHeader(data, VID_SYNC_HEADER) {
            frameIdx := UnpackU64(data[3..11]);
          } else if HasHeader(data, AUD_SYNC_HEADER) {
            musicPlay := true;
            prevMillis := now;
            posit := UnpackU64(data[3..11]);
          }
          assert State() == ApplyPacket(old(State()), Parse(data), now);
          if now - prevMillis > RECV_MUSIC_TIMEOUT {
            musicPlay := false;
            prevMillis := now;
          }
          ShowImg(frameIdx);
        case RecvTimeout =>
          musicPlay := false;
          DestroyWindow();
      }
    }

    /** One pass of the receive loop, main.py:251-275, with the teardown of
        main.py:277-279 when the loop ends. */
    method ReceiveStep(ev: Event, now: int, key: int) returns (running: bool)
      requires RxDefined(State(), frameCount, ev)
      modifies this
      ensures State() == RxStep(old(State()), frameCount, ev, now, key).clock
      ensures running == RxStep(old(State()), frameCount, ev, now, key).running
      ensures outbox == old(outbox)
    {
      ReceiveEvent(ev, now);
      if IsRxQuitKey(key) {
        musicPlay := false;
        DestroyWindow();
        return false;
      }
      if IsFullscreenKey(key) {
        SetFullscreen(!wndIsFS);
      }
      running := true;
    }

    /** One invocation of `callback` (main.py:109-122), taken as a single
        atomic step over the shared position and music flag. */
    method Callback(outdata: array<Byte>)
      requires CallbackDefined(audioData, posit, outdata.Length, musicPlay)
      modifies this, outdata
      ensures outdata[..] == CallbackOutput(audioData, old(posit), outdata.Length, old(musicPlay))
      ensures State() == old(State()).(posit := CallbackPosit(audioData, old(posit), outdata.Length, old(musicPlay)))
      ensures outbox == old(outbox)
    {
      var n := outdata.Length;
      var data := Chunk(audioData, posit, n);
      posit := posit + n;
      if posit >= |audioData| {
        posit := 0;
      }
      if musicPlay {
        if |data| < n {
          FillWith(outdata, data, audioData[..n - |data|]);
          posit := posit + (n - |data|);
        } else {
          FillWith(outdata, data, []);
        }
      } else {
        FillWith(outdata, Zeros(n), []);
      }
    }
  }
}
