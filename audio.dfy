/** What one invocation of the audio `callback` (main.py:100-122) writes
    into its output buffer of n bytes and where it leaves the shared read
    position, given the raw track bytes and the position and music flag it
    starts from. */
module Audio {
  import opened BigEndian
  import opened Cyclic

  /** `len(audioData[p:p+n])`: Python slices clamp to the end of the track. */
  function Available(audio: seq<Byte>, p: nat, n: nat): (k: nat)
    ensures k <= n
    ensures p + k <= |audio| || k == 0
  {
    if p >= |audio| then 0 else if p + n <= |audio| then n else |audio| - p
  }

  /** `audioData[p:p+n]`. */
  function Chunk(audio: seq<Byte>, p: nat, n: nat): (r: seq<Byte>)
    ensures |r| == Available(audio, p, n)
  {
    if p >= |audio| then [] else audio[p..p + Available(audio, p, n)]
  }

  /** An invocation that does not raise: when playing across the end of the
      track, the wrapped head `audioData[:n - len(data)]` must fill the rest
      of the buffer, since a slice assignment may not change its length. */
  predicate CallbackDefined(audio: seq<Byte>, p: nat, n: nat, playing: bool) {
    playing && Available(audio, p, n) < n ==> n - Available(audio, p, n) <= |audio|
  }

  function Zeros(n: nat): (r: seq<Byte>)
    ensures |r| == n && forall i :: 0 <= i < n ==> r[i] == 0
  {
    seq(n, i => 0)
  }

  /** The bytes the callback leaves in the output buffer. */
  function CallbackOutput(audio: seq<Byte>, p: nat, n: nat, playing: bool): (r: seq<Byte>)
    requires CallbackDefined(audio, p, n, playing)
    ensures |r| == n
  {
    var data := Chunk(audio, p, n);
    if !playing then Zeros(n)
    else if |data| < n then data + audio[..n - |data|]
    else data
  }

  /** The read position the callback leaves behind. */
  function CallbackPosit(audio: seq<Byte>, p: nat, n: nat, playing: bool): (r: nat)
    ensures !playing && |audio| > 0 ==> r < |audio|
    ensures playing && p < |audio| && n <= |audio| ==> r < |audio|
  {
    var data := Chunk(audio, p, n);
    var advanced := if p + n >= |audio| then 0 else p + n;
    if playing && |data| < n then advanced + (n - |data|) else advanced
  }

  /** Playing, with the position inside the track and a block no longer than
      the track, the callback reads the track as a circle: byte i of the
      output is byte (p + i) mod L of the track, and the position moves on by
      n modulo L, so it stays inside the track. */
  lemma CallbackReadsCircularly(audio: seq<Byte>, p: nat, n: nat)
    requires p < |audio| && n <= |audio|
    ensures CallbackDefined(audio, p, n, true)
    ensures PlaysFrom(CallbackOutput(audio, p, n, true), audio, p)
    ensures CallbackPosit(audio, p, n, true) == (p + n) % |audio|
    ensures CallbackPosit(audio, p, n, true) < |audio|
  {
    var L := |audio|;
    CallbackSlices(audio, p, n);
    var out := CallbackOutput(audio, p, n, true);
    forall i | 0 <= i < n
      ensures out[i] == audio[(p + i) % L]
    {
      ModBelowTwice(p + i, L);
      if p + n > L && p + i >= L {
        assert out[i] == audio[..n - (L - p)][i - (L - p)];
      }
    }
    ModBelowTwice(p + n, L);
  }

  /** The two shapes of the output while playing: the slice itself when it
      fits, otherwise the tail of the track followed by its first
      n - len(tail) bytes, after which the position is n - len(tail). */
  lemma CallbackSlices(audio: seq<Byte>, p: nat, n: nat)
    requires p < |audio| && CallbackDefined(audio, p, n, true)
    ensures p + n <= |audio| ==> CallbackOutput(audio, p, n, true) == audio[p..p + n]
    ensures p + n > |audio| ==>
              CallbackOutput(audio, p, n, true) == audio[p..] + audio[..n - (|audio| - p)]
              && CallbackPosit(audio, p, n, true) == n - (|audio| - p)
  {
  }

  /** Muted, the output is silence and the position still advances by n,
      but restarts at 0 instead of wrapping when it reaches the end. */
  lemma CallbackMuted(audio: seq<Byte>, p: nat, n: nat)
    ensures CallbackDefined(audio, p, n, false)
    ensures CallbackOutput(audio, p, n, false) == Zeros(n)
    ensures CallbackPosit(audio, p, n, false) == if p + n >= |audio| then 0 else p + n
    ensures 0 < |audio| ==> CallbackPosit(audio, p, n, false) < |audio|
  {
  }

  /** A position past the end of the track (one a receiver was sent) plays
      from the start of the track. */
  lemma CallbackPastEnd(audio: seq<Byte>, p: nat, n: nat)
    requires p >= |audio| && n <= |audio|
    ensures CallbackDefined(audio, p, n, true)
    ensures CallbackOutput(audio, p, n, true) == audio[..n]
    ensures CallbackPosit(audio, p, n, true) == n
  {
  }

  /** out is the track read as a circle from position p. */
  predicate PlaysFrom(out: seq<Byte>, audio: seq<Byte>, p: nat)
    requires |audio| > 0
  {
    forall i :: 0 <= i < |out| ==> out[i] == audio[(p + i) % |audio|]
  }

  lemma PlaysFromAppend(a: seq<Byte>, b: seq<Byte>, audio: seq<Byte>, p: nat, q: nat)
    requires |audio| > 0 && q == (p + |a|) % |audio|
    requires PlaysFrom(a, audio, p) && PlaysFrom(b, audio, q)
    ensures PlaysFrom(a + b, audio, p)
  {
    var L := |audio|;
    forall i | 0 <= i < |a| + |b|
      ensures (a + b)[i] == audio[(p + i) % L]
    {
      if i < |a| {
        assert (a + b)[i] == a[i];
      } else {
        var j := i - |a|;
        assert (a + b)[i] == b[j];
        assert b[j] == audio[(q + j) % L];
        ModShift(p + |a|, j, L);
        assert p + |a| + j == p + i;
      }
    }
  }

  /** Playing across two invocations is seamless: the second continues the
      circle exactly where the first stopped. */
  lemma CallbackContinues(audio: seq<Byte>, p: nat, n: nat)
    requires p < |audio| && n <= |audio|
    ensures CallbackDefined(audio, p, n, true)
    ensures CallbackPosit(audio, p, n, true) < |audio|
    ensures CallbackDefined(audio, CallbackPosit(audio, p, n, true), n, true)
    ensures PlaysFrom(CallbackOutput(audio, p, n, true)
                      + CallbackOutput(audio, CallbackPosit(audio, p, n, true), n, true), audio, p)
  {
    CallbackReadsCircularly(audio, p, n);
    var q := CallbackPosit(audio, p, n, true);
    CallbackReadsCircularly(audio, q, n);
    var first := CallbackOutput(audio, p, n, true);
    assert q == (p + |first|) % |audio|;
    PlaysFromAppend(first, CallbackOutput(audio, q, n, true), audio, p, q);
  }
}
