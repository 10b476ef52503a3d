/** Big-endian unsigned integers of a fixed byte width, the ">Q" format of
    Python's struct module when the width is 8. */
module BigEndian {

  /** One octet of a datagram or of the raw audio buffer. */
  type Byte = x: int | 0 <= x < 256

  /** 256 to the power k: the number of values k bytes can hold. */
  function Pow256(k: nat): (r: nat)
    ensures r > 0
  {
    if k == 0 then 1 else 256 * Pow256(k - 1)
  }

  /** The exclusive upper bound of an unsigned 64-bit integer. */
  const U64_LIMIT: nat := 0x1_0000_0000_0000_0000

  lemma Pow256Eight()
    ensures Pow256(8) == U64_LIMIT
  {
    assert Pow256(1) == 0x100;
    assert Pow256(2) == 0x1_0000;
    assert Pow256(3) == 0x100_0000;
    assert Pow256(4) == 0x1_0000_0000;
    assert Pow256(5) == 0x100_0000_0000;
    assert Pow256(6) == 0x1_0000_0000_0000;
    assert Pow256(7) == 0x100_0000_0000_0000;
  }

  /** The `width` low-order bytes of n, most significant first. */
  function ToBigEndian(n: nat, width: nat): (r: seq<Byte>)
    ensures |r| == width
  {
    if width == 0 then [] else ToBigEndian(n / 256, width - 1) + [n % 256]
  }

  /** The unsigned integer whose big-endian bytes are s. */
  function FromBigEndian(s: seq<Byte>): (r: nat)
    ensures r < Pow256(|s|)
  {
    if s == [] then 0
    else
      var high := FromBigEndian(s[..|s| - 1]);
      assert high * 256 <= (Pow256(|s| - 1) - 1) * 256;
      high * 256 + s[|s| - 1]
  }

  /** Decoding undoes encoding for every value that fits in the width. */
  lemma {:induction false} FromToBigEndian(n: nat, width: nat)
    requires n < Pow256(width)
    ensures FromBigEndian(ToBigEndian(n, width)) == n
  {
    if width > 0 {
      var s := ToBigEndian(n, width);
      assert s[..width - 1] == ToBigEndian(n / 256, width - 1);
      assert s[width - 1] == n % 256;
      FromToBigEndian(n / 256, width - 1);
    }
  }

  /** Encoding undoes decoding: every byte string of the width is the
      encoding of exactly one value. */
  lemma {:induction false} ToFromBigEndian(s: seq<Byte>)
    ensures ToBigEndian(FromBigEndian(s), |s|) == s
  {
    if s != [] {
      var prefix := s[..|s| - 1];
      var v := FromBigEndian(s);
      assert v / 256 == FromBigEndian(prefix);
      assert v % 256 == s[|s| - 1];
      ToFromBigEndian(prefix);
      assert s == prefix + [s[|s| - 1]];
    }
  }

  /** The ">Q" encoding: eight bytes, most significant first. */
  function PackU64(n: nat): (r: seq<Byte>)
    requires n < U64_LIMIT
    ensures |r| == 8
  {
    ToBigEndian(n, 8)
  }

  /** The ">Q" decoding of exactly eight bytes. */
  function UnpackU64(s: seq<Byte>): (r: nat)
    requires |s| == 8
    ensures r < U64_LIMIT
  {
    Pow256Eight();
    FromBigEndian(s)
  }

  lemma UnpackPack(n: nat)
    requires n < U64_LIMIT
    ensures UnpackU64(PackU64(n)) == n
  {
    Pow256Eight();
    FromToBigEndian(n, 8);
  }

  lemma PackUnpack(s: seq<Byte>)
    requires |s| == 8
    ensures PackU64(UnpackU64(s)) == s
  {
    ToFromBigEndian(s);
  }
}
