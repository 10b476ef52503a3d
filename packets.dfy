/** Sync packet framing: a 3-byte type tag followed by an 8-byte ">Q"
    payload (main.py:52-53, 188, 193, 254-259). */
module Packets {
  import opened BigEndian
  import opened Optional

  const VID_SYNC_HEADER: seq<Byte> := [0, 0, 1]
  const AUD_SYNC_HEADER: seq<Byte> := [0, 0, 2]

  /** Tag plus payload. */
  const PACKET_LENGTH: nat := 11

  datatype Packet = VideoSync(frameIdx: nat) | AudioSync(posit: nat)
  {
    function Payload(): nat {
      match this
      case VideoSync(f) => f
      case AudioSync(p) => p
    }

    function Header(): seq<Byte> {
      if VideoSync? then VID_SYNC_HEADER else AUD_SYNC_HEADER
    }
  }

  /** `data[0:3] == tag` in Python: a datagram shorter than three bytes yields
      a shorter slice, which never equals a tag. */
  predicate HasHeader(data: seq<Byte>, tag: seq<Byte>)
    requires |tag| == 3
  {
    |data| >= 3 && data[..3] == tag
  }

  /** The sender builds `header + struct.pack(">Q", payload)`; `struct.pack`
      raises unless the payload fits in 64 bits. */
  function Encode(p: Packet): (r: seq<Byte>)
    requires p.Payload() < U64_LIMIT
    ensures |r| == PACKET_LENGTH
    ensures HasHeader(r, p.Header())
  {
    p.Header() + PackU64(p.Payload())
  }

  /** The datagrams for a sequence of packets, in order. */
  function EncodeAll(ps: seq<Packet>): (r: seq<seq<Byte>>)
    requires forall p :: p in ps ==> p.Payload() < U64_LIMIT
    ensures |r| == |ps| && forall i :: 0 <= i < |ps| ==> r[i] == Encode(ps[i])
  {
    if ps == [] then [] else [Encode(ps[0])] + EncodeAll(ps[1..])
  }

  /** A datagram the receive loop can classify without raising: a known tag
      must be followed by at least eight bytes for `struct.unpack`. */
  predicate Framed(data: seq<Byte>) {
    (HasHeader(data, VID_SYNC_HEADER) || HasHeader(data, AUD_SYNC_HEADER)) ==> |data| >= PACKET_LENGTH
  }

  /** The receive loop's classification: a video tag, else an audio tag, else
      the datagram is ignored. Bytes after the eleventh are ignored. */
  function Parse(data: seq<Byte>): (r: Option<Packet>)
    requires Framed(data)
    ensures r.None? <==> !HasHeader(data, VID_SYNC_HEADER) && !HasHeader(data, AUD_SYNC_HEADER)
    ensures r.Some? ==> r.value.Payload() < U64_LIMIT
    ensures r.Some? ==> HasHeader(data, r.value.Header())
  {
    if HasHeader(data, VID_SYNC_HEADER) then Some(VideoSync(UnpackU64(data[3..11])))
    else if HasHeader(data, AUD_SYNC_HEADER) then Some(AudioSync(UnpackU64(data[3..11])))
    else None
  }

  lemma HeadersDiffer()
    ensures VID_SYNC_HEADER != AUD_SYNC_HEADER
    ensures forall data: seq<Byte> :: !(HasHeader(data, VID_SYNC_HEADER) && HasHeader(data, AUD_SYNC_HEADER))
  {
    assert VID_SYNC_HEADER[2] != AUD_SYNC_HEADER[2];
  }

  /** Round trip: the receiver reads back exactly what the sender packed,
      of the same kind, whatever trails the eleven bytes. */
  lemma ParseEncode(p: Packet, trailing: seq<Byte>)
    requires p.Payload() < U64_LIMIT
    ensures Framed(Encode(p) + trailing)
    ensures Parse(Encode(p) + trailing) == Some(p)
  {
    var data := Encode(p) + trailing;
    assert data[..3] == p.Header();
    assert data[3..11] == PackU64(p.Payload());
    UnpackPack(p.Payload());
    HeadersDiffer();
  }

  /** The converse: a datagram the receiver accepts starts with the encoding
      of the packet it was read as. */
  lemma EncodeParse(data: seq<Byte>)
    requires Framed(data)
    requires Parse(data).Some?
    ensures data[..PACKET_LENGTH] == Encode(Parse(data).value)
  {
    PackUnpack(data[3..11]);
    assert data[..PACKET_LENGTH] == data[..3] + data[3..11];
  }

  /** Distinct packets have distinct wire forms; in particular a video sync
      is never read as an audio sync, nor the reverse. */
  lemma EncodeInjective(p: Packet, q: Packet)
    requires p.Payload() < U64_LIMIT && q.Payload() < U64_LIMIT
    requires Encode(p) == Encode(q)
    ensures p == q
  {
    ParseEncode(p, []);
    ParseEncode(q, []);
    assert Encode(p) + [] == Encode(q) + [];
  }

  lemma ShortDatagramIgnored(data: seq<Byte>)
    requires |data| < 3
    ensures Framed(data) && Parse(data) == None
  {
  }
}
