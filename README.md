# Gandalf multicast sync — a Dafny model

`main.py` plays a looping GIF with a music track on several machines of a LAN
and keeps them in step. One instance (mode 0) transmits. Every pass of its loop
multicasts a **VideoSync** datagram carrying the index of the frame it is about
to show. At most every 250 ms it also multicasts an **AudioSync** datagram
carrying its read position in the raw audio bytes. Every other instance
(mode 1, the default) receives. It jumps to the announced frame and adopts the
announced audio position. It stops the music when AudioSync traffic goes stale
for 500 ms, and hides its window when nothing arrives for 500 ms. The audio
`callback` fills each output block from the track, read as a circle, or with
silence while muted.

The model has these pieces:

| file | module | what it holds |
|---|---|---|
| `optional.dfy` | `Optional` | `Option` |
| `bigendian.dfy` | `BigEndian` | bytes, unsigned big-endian encoding, `struct.pack(">Q")` / `struct.unpack(">Q")` |
| `packets.dfy` | `Packets` | the two 3-byte tags, `Encode` (tag + 8 payload bytes), `Parse` as the receive loop classifies a datagram |
| `mode.dfy` | `Mode` | Python's `int()` on ASCII text, `str()` of an integer, and the start-up mode selection |
| `playback.dfy` | `Playback` | the `Clock` snapshot of the mutable globals, key codes, `setFullscreen` / `showImg` / window teardown |
| `cyclic.dfy` | `Cyclic` | the wrap-around step of the frame index and its modular characterisation |
| `transmitter.dfy` | `Transmitter` | one transmit iteration `TxTick` as a function, the loop `TxRun` over a list of iterations, and lemmas |
| `receiver.dfy` | `Receiver` | one receive iteration `RxStep`, the loop `RxRun`, and lemmas |
| `audio.dfy` | `Audio` | the bytes and position one `callback` invocation produces, and lemmas |
| `sync.dfy` | `Sync` | a transmitter's datagrams handed to a receiver |
| `instance.dfy` | `Instance` | class `Instance` holding the globals as fields, with imperative methods for the transmit tick, the receive step and the callback (writing an `array`), each proved equal to the functions above |

Each loop iteration reads the clock once. The reading (`now`), the key
`cv2.waitKey` returned and the outcome of `recvfrom` (a datagram or a timeout)
are parameters. Sending appends the encoded datagram to the field `outbox`.

Some things the source does are crashes rather than handled errors:

- The transmit loop catches every exception and ends. The model treats a
  frame index outside the frame list, and a payload that does not fit 64 bits,
  as the stop path of `TxTick`.
- The receive loop catches only `socket.timeout`. Its crashes are therefore
  preconditions (`RxDefined`), and so is the callback's (`CallbackDefined`).

Some behaviours of `main.py` that the model keeps as written:

- A datagram with a known tag but fewer than 11 bytes crashes the receiver:
  `struct.unpack` raises, and nothing catches it (precondition `Framed`).
  Datagrams shorter than 3 bytes, or with an unknown tag, are ignored
  (`ShortDatagramIgnored`, `RxIgnoredDatagram`).
- The stale-audio rule (main.py:261-263) only mutes. It does not hide the
  window. Only a receive timeout hides it.
- The AudioSync interval test is strict: more than 250 ms.
- A playing callback whose block wraps past the end of the track raises when
  the wrapped head is too short. With a 4-byte track, asking for 4096 bytes
  2 bytes before the end makes `audioData[:4094]` only 4 bytes long, and the
  slice assignment raises. The model requires `n - len(tail) <= len(audioData)`.
- `mode is not 1` compares identity. For the small integers `int()` returns,
  this agrees with equality.

## Model

| member | source | states |
|---|---|---|
| `BigEndian.FromToBigEndian` | main.py:188 | decoding the width-byte big-endian encoding of any n < 256^width gives n back |
| `BigEndian.ToFromBigEndian` | main.py:255 | re-encoding the value of any byte string at its own width reproduces the string |
| `BigEndian.PackU64` | main.py:188 | `struct.pack(">Q", n)` is 8 bytes for every n < 2^64 |
| `BigEndian.UnpackU64` | main.py:255 | `struct.unpack(">Q", b)` of 8 bytes is below 2^64 |
| `BigEndian.UnpackPack` | main.py:188 | unpacking a packed integer returns it, for every n < 2^64 |
| `BigEndian.PackUnpack` | main.py:255 | packing an unpacked 8-byte string returns the string |
| `Packets.Encode` | main.py:188-193 | a packet is 11 bytes and starts with its own tag |
| `Packets.EncodeAll` | main.py:188-193 | the datagrams of a packet list, one per packet, in order |
| `Packets.Parse` | main.py:254-259 | no packet exactly when neither tag leads the datagram; the payload fits 64 bits; the tag read is the packet's own |
| `Packets.HeadersDiffer` | main.py:52-53 | the two tags differ, so no datagram carries both |
| `Packets.ParseEncode` | main.py:254-259 | an encoded packet, with any trailing bytes, parses back to itself: a VideoSync is never read as an AudioSync or the reverse |
| `Packets.EncodeParse` | main.py:254-259 | the first 11 bytes of any datagram that parses are the encoding of what it parses to |
| `Packets.EncodeInjective` | main.py:188-193 | different packets have different encodings |
| `Packets.ShortDatagramIgnored` | main.py:254-256 | a datagram shorter than 3 bytes is ignored without raising |
| `Mode.StripLeft` | main.py:72 | the result is a suffix of the text, does not start with whitespace, and everything removed is whitespace (space, \t, \n, \v, \f, \r: the characters `int()` skips, not the separators 0x1c-0x1f) |
| `Mode.StripRight` | main.py:72 | the result is a prefix of the text, does not end with whitespace, and everything removed is whitespace (the same six characters) |
| `Mode.ParseSigned` | main.py:72 | a converted text starts with a digit, or with '+' or '-' followed by a digit |
| `Mode.ParseSignedDigits` | main.py:72 | a digit run, with single underscores between digits allowed and with or without a leading minus, converts to its value or its negation ("1_000" is 1000) |
| `Mode.ParseShowInt` | main.py:72 | `int(str(n)) == n` for every integer n (the model has no digit limit; see Left out) |
| `Mode.ParseIntNeedsDigit` | main.py:71-74 | a text `int()` accepts contains a digit |
| `Mode.ParseInt` | main.py:72 | `int(s)` on ASCII text, stated by the lemmas on the next rows: accepted texts (`ParseShowInt`, `ParseSignedDigits`, `ParseIntPlus`), their values (`LeadingZero`, `UnderscoreSkipped`), rejected texts (`ParseIntNeedsDigit`, `ParseIntRejects`, `ParseIntUnderscore`), and surrounding whitespace (`ParseIntIgnoresSpace`) |
| `Mode.ParseIntPlus` | main.py:72 | a leading '+' before digits is accepted and the value is that of the digits |
| `Mode.LeadingZero` | main.py:72 | leading zeros do not change the value ("007" is 7) |
| `Mode.UnderscoreSkipped` | main.py:72 | the value of digits is unchanged by an underscore among them; which underscores `int()` accepts is stated by `ParseSignedDigits` and `ParseIntUnderscore` |
| `Mode.StrippedIndex` | main.py:72 | a character that is not whitespace survives stripping, with the same neighbours |
| `Mode.ParseIntRejects` | main.py:72 | a text holding a character that is not whitespace, a digit, '_', '+' or '-' is rejected ("1x", "\x1c0") |
| `Mode.ParseIntUnderscore` | main.py:72 | a text holding an underscore that does not stand between two digits is rejected ("_1", "1_", "1__0") |
| `Mode.ParseIntIgnoresSpace` | main.py:72 | for every text, a leading blank and a trailing newline do not change what `int()` returns |
| `Mode.NormaliseMode` | main.py:67-78 | the normalised mode is 0 or 1 |
| `Mode.NormaliseModeCases` | main.py:67-78 | mode 0 exactly when an argument is given and converts to 0; the warning exactly when an argument is given that converts to neither 0 nor 1; mode 1 without warning when no argument is given |
| `Mode.NormaliseShownMode` | main.py:67-78 | for an argument printed from integer k: mode 0 iff k = 0, warning iff k is neither 0 nor 1 |
| `Mode.NoDigitsReceives` | main.py:71-78 | an argument without digits selects mode 1 with the warning |
| `Mode.SeparatorReceives` | main.py:71-78 | an argument holding one of the separators 0x1c-0x1f cannot be converted, so it selects mode 1 with the warning |
| `Playback.SetFullscreen` | main.py:84-87 | records the requested mode and changes nothing else |
| `Playback.ShowImg` | main.py:89-97 | the window is showing, with the frame displayed; the fullscreen flag becomes the default only if the window was not already showing; nothing else changes |
| `Playback.HideWindow` | main.py:215-216 | the window is gone and shows nothing; nothing else changes |
| `Playback.FullscreenSurvivesShowImg` | main.py:89-97 | a fullscreen mode chosen while the window is open survives every later frame |
| `Playback.ShowAfterHideResetsFullscreen` | main.py:89-97 | reopening a destroyed window restores the default fullscreen mode |
| `Playback.QuitKeys` | main.py:207-273 | the receiver's quit keys are the transmitter's minus 'Q'; quit, mute and fullscreen keys are disjoint |
| `Cyclic.Next` | main.py:201-203 | the frame step moves one on or back to 0, and stays inside a non-empty frame list; `Cyclic.NextIsModular` shows it is i + 1 mod N |
| `Cyclic.NextIsModular` | main.py:201-203 | inside [0, N) the step is i + 1 mod N, and stays below N |
| `Cyclic.Cycle` | main.py:201-203 | k steps visit k indices |
| `Cyclic.StepsIsModular` | main.py:201-203 | k steps from i < N end at (i + k) mod N |
| `Cyclic.CycleIsModular` | main.py:201-203 | the j-th index visited from i < N is (i + j) mod N |
| `Transmitter.AudioDue` | main.py:191 | more than 250 ms since the audio timer started; its effect on a tick is stated by `Transmitter.TxAudioCadence` |
| `Transmitter.TxStop` | main.py:214-221 | leaving the loop destroys the window and changes nothing else; the packets already sent stay sent (`Transmitter.TxBadIndexStops`, `Transmitter.TxKeys`) |
| `Transmitter.SyncPackets` | main.py:186-195 | the VideoSync of the current frame comes first; a second packet is sent exactly when the audio interval elapsed and the music plays, and it is the AudioSync of the current position |
| `Transmitter.AfterSync` | main.py:191-195 | only the audio timer changes; it restarts when the interval elapsed, so straight afterwards no AudioSync is due |
| `Transmitter.Advance` | main.py:197-203 | the window shows the current frame; the next index stays inside the frame list; position, music and timer are kept |
| `Transmitter.ApplyKey` | main.py:209-212 | 'm'/'M' flips the music and 'f'/'F' flips fullscreen; nothing else changes |
| `Transmitter.TxTick` | main.py:181-221 | one iteration sends at most two packets, each with a payload that fits `>Q`; when the loop ends the window is destroyed |
| `Transmitter.TxVideoSyncAndWrap` | main.py:184-203 | the first packet is the VideoSync of the current frame; that frame is shown unless the key quits; the index becomes (f + 1) mod N and stays below N |
| `Transmitter.TxAudioCadence` | main.py:186-195 | the packets are the VideoSync, then the AudioSync of the current position exactly when more than 250 ms have passed and the music plays; the timer restarts exactly when the interval elapsed, muted or not; the position is unchanged |
| `Transmitter.TxKeys` | main.py:206-212 | the loop goes on iff the key is not Esc/'q'/'Q'; quitting destroys the window; 'm'/'M' toggles the music; 'f'/'F' toggles fullscreen; every other key acts as no key |
| `Transmitter.TxBadIndexStops` | main.py:214-221 | an index outside the frame list sends nothing and ends the loop with the window destroyed |
| `Transmitter.TxTickVideoFrames` | main.py:186-193 | a safe iteration carries exactly one VideoSync, for the current frame |
| `Transmitter.TxRun` | main.py:181-221 | every packet of a run fits `>Q`; at most two packets per iteration; a run that ends leaves the window destroyed |
| `Transmitter.TxRunKeepsRunning` | main.py:181-218 | without a quit key, a run from a safe state never stops |
| `Transmitter.TxRunIndex` | main.py:200-203 | without a quit key, the index after k iterations is the index k steps on |
| `Transmitter.TxRunFrames` | main.py:186-203 | without a quit key, the VideoSync packets of a run carry exactly the indices the loop visits, in order |
| `Transmitter.TxRunCycles` | main.py:181-218 | without a quit key the loop keeps running; the VideoSyncs of k iterations carry f, f + 1, … mod N; the index ends at (f + k) mod N |
| `Receiver.ApplyPacket` | main.py:254-259 | the window is untouched; an ignored datagram changes nothing; the music starts only by an AudioSync; the frame changes only to a VideoSync's payload and the position only to an AudioSync's |
| `Receiver.Receive` | main.py:252-269 | a datagram leaves the window showing the current frame; a timeout mutes and destroys the window, keeping frame and position; music still playing means an AudioSync within the last 500 ms |
| `Receiver.Stale` | main.py:261 | more than 500 ms since the last AudioSync; its effect on a step is stated by `Receiver.RxStaleAudio` |
| `Receiver.RxStep` | main.py:250-279 | when the loop ends, the music is off and the window is gone |
| `Receiver.RxVideoSync` | main.py:254-265 | a VideoSync sets the frame to its payload and shows it unless the key quits; position unchanged; music and timer change only by the stale rule |
| `Receiver.RxAudioSync` | main.py:256-265 | an AudioSync sets the position, restarts the timer, starts the music unless the key quits, and keeps the frame |
| `Receiver.RxIgnoredDatagram` | main.py:252-265 | an untagged datagram changes neither frame nor position, and the music only by the stale rule; the window is shown unless the key quits |
| `Receiver.RxStaleAudio` | main.py:261-263 | after any datagram, more than 500 ms since the last audio sync stops the music and restarts the timer |
| `Receiver.RxTimeoutIdles` | main.py:266-269 | a receive timeout mutes and destroys the window, and keeps frame, position and timer |
| `Receiver.RxFrameOnlyFromVideoSync` | main.py:254-265 | the frame changes only to the payload of a received VideoSync, and stays inside the frame list |
| `Receiver.RxKeys` | main.py:271-279 | the loop goes on iff the key is not Esc/'q'; 'f'/'F' toggles fullscreen; every other key acts as no key |
| `Receiver.RxRun` | main.py:250-275 | over any deliverable run the frame stays inside the frame list |
| `Receiver.RxRunLastVideoWins` | main.py:250-275 | without a quit key, a run ends on the frame of the last VideoSync received, or on the frame it started from |
| `Receiver.RxQuietStep` | main.py:256-269 | a step without an AudioSync never starts the music; if the music still plays afterwards, the step was a datagram within 500 ms of the last sync, the loop goes on and the timer is unchanged |
| `Receiver.RxRunMusicFades` | main.py:256-269 | if the music still plays after a run without AudioSync, it played at the start, every step was a datagram within 500 ms of the last audio sync, and the timer is unchanged: VideoSync traffic alone cannot keep the music going |
| `Receiver.RxRunMusicOff` | main.py:256-269 | once muted, a receiver stays muted until an AudioSync arrives |
| `Audio.Available` | main.py:109 | the length of the clamped slice is at most n, and the slice lies inside the track |
| `Audio.Chunk` | main.py:109 | the slice has that length |
| `Audio.Zeros` | main.py:122 | n zero bytes |
| `Audio.CallbackPosit` | main.py:110-118 | muted, the position stays inside a non-empty track; playing from inside the track with a block no longer than the track, it stays inside too (exact values: `Audio.CallbackReadsCircularly`, `Audio.CallbackSlices`, `Audio.CallbackMuted`) |
| `Audio.CallbackOutput` | main.py:114-122 | the output is exactly n bytes |
| `Audio.CallbackReadsCircularly` | main.py:109-122 | playing from inside the track with n no longer than the track: output byte i is track byte (p + i) mod L, and the position becomes (p + n) mod L, still inside the track |
| `Audio.CallbackSlices` | main.py:109-120 | playing: the output is `audioData[p:p+n]` when it fits, else the tail followed by the first n - len(tail) bytes, and then the position is n - len(tail) |
| `Audio.CallbackMuted` | main.py:109-122 | muted: all zero bytes; the position advances by n and restarts at 0 on reaching the end, so it stays inside a non-empty track |
| `Audio.CallbackPastEnd` | main.py:109-118 | playing from a position past the end plays the first n bytes, and the position becomes n |
| `Audio.CallbackContinues` | main.py:109-122 | two consecutive playing blocks read the track as one circle, without a gap or a repeat |
| `Sync.VideoSyncDelivered` | main.py:188-265 | the receiver that gets a tick's VideoSync lands on the frame the transmitter showed; if neither side quits, both show the same frame |
| `Sync.AudioSyncDelivered` | main.py:191-259 | when the AudioSync is due, the receiver that gets it adopts the transmitter's position, starts the music unless it quits, and keeps its frame |
| `Instance.CopyInto` | main.py:116-122 | the slice assignment overwrites exactly the target range with the source bytes |
| `Instance.FillWith` | main.py:116-122 | the buffer becomes x followed by y |
| `Instance.Instance.constructor` | main.py:58-65 | the globals at import time, empty outbox |
| `Instance.Instance.StartTransmitting` | main.py:177-179 | music on, timer started; nothing else changes |
| `Instance.Instance.StartReceiving` | main.py:248 | timer started; nothing else changes |
| `Instance.Instance.SetFullscreen` | main.py:84-87 | the state becomes `Playback.SetFullscreen` of the old state |
| `Instance.Instance.ShowImg` | main.py:89-97 | the state becomes `Playback.ShowImg` of the old state |
| `Instance.Instance.DestroyWindow` | main.py:215-216 | the state becomes `Playback.HideWindow` of the old state |
| `Instance.Instance.Send` | main.py:188 | the encoded packet is appended to the outbox; state unchanged |
| `Instance.Instance.SendSyncs` | main.py:186-195 | sends the iteration's sync packets and restarts the timer when due; if packing the position fails, only the VideoSync went out and the state is unchanged |
| `Instance.Instance.AdvanceFrame` | main.py:197-203 | shows the frame and steps the index, as `Transmitter.Advance` |
| `Instance.Instance.HandleTxKey` | main.py:209-212 | applies the mute and fullscreen keys, as `Transmitter.ApplyKey` |
| `Instance.Instance.TransmitTick` | main.py:181-221 | the new state, the loop flag and the appended datagrams are those of `Transmitter.TxTick` |
| `Instance.Instance.ReceiveEvent` | main.py:252-269 | the new state is `Receiver.Receive` of the old one |
| `Instance.Instance.ReceiveStep` | main.py:250-279 | the new state and the loop flag are those of `Receiver.RxStep`; nothing is sent |
| `Instance.Instance.Callback` | main.py:100-122 | the output array holds `Audio.CallbackOutput` and the position becomes `Audio.CallbackPosit`; nothing else changes |

## Left out

- Sockets (creation, multicast options, bind, group membership, close; main.py:173-174, 223, 228-246, 280): network I/O. A send is an append to `outbox`. A receive is an `Event` given as a parameter. The test `sock is not None` always holds in the transmitter and is not modelled.
- Delivery between instances: loss, duplication, reordering and delay are not modelled. `Sync` hands one datagram over unchanged.
- OpenCV: window creation, `imshow`, `destroyAllWindows` and `setWindowProperty`. Only the flags `isWindowShowing` and `wndIsFS`, and the index of the frame shown, are kept. Whether `setWindowProperty` on a destroyed window raises is not modelled.
- Loading the GIF and the music (main.py:124-131, 151-164): library I/O. The frame list is its length, and `audioData` is a fixed byte sequence.
- The sounddevice stream (main.py:133-138), the underflow abort and the two `assert`s in `callback` (main.py:102-107): audio-library behaviour outside the data path.
- Wall-clock time (main.py:82): each iteration reads the clock once, so the separate `millis()` calls of one iteration see the same value.
- The frame rate and the `waitKey` delays (main.py:206, 271): the model has no frame rate, and the key of an iteration is a parameter. A rate of 0 makes `1000/vid_fps` raise `ZeroDivisionError`, which main.py:214-218 catches. Then the transmit loop ends after the first tick's packets and frame step, with the window destroyed. The model does not capture this. Above 1000 fps the delay is `waitKey(0)`, which blocks until a key is pressed. The receiver's 16 ms wait only paces its loop.
- Concurrency between `callback` and the main loop, which share `posit` and `musicPlay`: each callback invocation is one atomic step (`Instance.Instance.Callback`). Interleavings are not modelled.
- `int()` on non-ASCII text: Unicode whitespace and digits, and bases other than 10, are not modelled. `Mode.ParseInt` covers ASCII decimal text.
- `Mode.ParseInt`: has no digit limit. Recent CPython releases (3.11 and later, and the security releases 3.7.14, 3.8.14, 3.9.14 and 3.10.7) raise `ValueError` for a decimal of more than 4300 digits. So `Mode.ParseShowInt` does not describe those releases for such integers.
- `Mode.NormaliseMode`: inherits the missing digit limit. The limit counts every digit character, leading zeros included. On the releases named above, an argument of more than 4300 digits selects mode 1 with the warning. The model converts it instead: 4301 zeros select mode 0 with no warning, and 4300 zeros followed by "1" select mode 1 with no warning.
- Exception messages printed (main.py:77, 217): output only. The warning of main.py:77 is the `warned` flag of `Mode.Choice`.
- `Transmitter.TxTick`: its own contract only bounds the packets and states the teardown. What it computes is stated by the lemmas beside it and by `Instance.Instance.TransmitTick`.
