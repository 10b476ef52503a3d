/** The two instances together: what a receiver does with the datagrams
    one transmit tick puts on the multicast group. Delivery itself (loss,
    reordering, delay) is not modelled; each lemma hands one datagram over
    unchanged. */
module Sync {
  import opened BigEndian
  import opened Optional
  import opened Packets
  import opened Playback
  import opened Transmitter
  import opened Receiver

  /** The VideoSync of a tick, received, puts the receiver on the frame the
      transmitter showed in that tick; when neither side quits, both windows
      show the same frame. */
  lemma VideoSyncDelivered(tx: Clock, frameCount: nat, now: int, key: int,
                           rx: Clock, rxNow: int, rxKey: int)
    requires TxSafe(tx, frameCount)
    ensures Framed(Encode(TxTick(tx, frameCount, now, key).sent[0]))
    ensures RxDefined(rx, frameCount, Datagram(Encode(TxTick(tx, frameCount, now, key).sent[0])))
    ensures RxStep(rx, frameCount, Datagram(Encode(TxTick(tx, frameCount, now, key).sent[0])), rxNow, rxKey)
              .clock.frameIdx == tx.frameIdx
    ensures !IsTxQuitKey(key) && !IsRxQuitKey(rxKey) ==>
              RxStep(rx, frameCount, Datagram(Encode(TxTick(tx, frameCount, now, key).sent[0])), rxNow, rxKey)
                .clock.shown == TxTick(tx, frameCount, now, key).clock.shown
  {
    TxVideoSyncAndWrap(tx, frameCount, now, key);
    var data := Encode(VideoSync(tx.frameIdx));
    ParseEncode(VideoSync(tx.frameIdx), []);
    assert data + [] == data;
    RxVideoSync(rx, frameCount, data, rxNow, rxKey, tx.frameIdx);
  }

  /** The AudioSync of a tick, received, hands the transmitter's read
      position to the receiver and starts its music unless it quits. */
  lemma AudioSyncDelivered(tx: Clock, frameCount: nat, now: int, key: int,
                           rx: Clock, rxFrames: nat, rxNow: int, rxKey: int)
    requires TxSafe(tx, frameCount) && AudioDue(tx, now) && tx.musicPlay
    requires rx.frameIdx < rxFrames
    ensures |TxTick(tx, frameCount, now, key).sent| == 2
    ensures Framed(Encode(TxTick(tx, frameCount, now, key).sent[1]))
    ensures RxDefined(rx, rxFrames, Datagram(Encode(TxTick(tx, frameCount, now, key).sent[1])))
    ensures RxStep(rx, rxFrames, Datagram(Encode(TxTick(tx, frameCount, now, key).sent[1])), rxNow, rxKey)
              .clock.posit == tx.posit
    ensures RxStep(rx, rxFrames, Datagram(Encode(TxTick(tx, frameCount, now, key).sent[1])), rxNow, rxKey)
              .clock.musicPlay == !IsRxQuitKey(rxKey)
    ensures RxStep(rx, rxFrames, Datagram(Encode(TxTick(tx, frameCount, now, key).sent[1])), rxNow, rxKey)
              .clock.frameIdx == rx.frameIdx
  {
    TxAudioCadence(tx, frameCount, now, key);
    var data := Encode(AudioSync(tx.posit));
    ParseEncode(AudioSync(tx.posit), []);
    assert data + [] == data;
    RxAudioSync(rx, rxFrames, data, rxNow, rxKey, tx.posit);
  }
}
