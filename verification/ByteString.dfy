/** Bytes as bit strings, and the whole bytes of a bit string. */
module ByteString {
  import opened Basics
  import opened BitString

  /** The bits of a string of bytes, each most significant bit first. */
  function ByteBits(data: seq<byte>): (s: seq<bool>)
    ensures |s| == 8 * |data|
  {
    seq(8 * |data|, i requires 0 <= i < 8 * |data| => Bits(data[i / 8], 8)[i % 8])
  }

  lemma ByteBitsAppend(a: seq<byte>, b: seq<byte>)
    ensures ByteBits(a + b) == ByteBits(a) + ByteBits(b)
  {
    hide Bits;
    forall i | 0 <= i < 8 * |a + b|
      ensures ByteBits(a + b)[i] == (ByteBits(a) + ByteBits(b))[i]
    {
      if i >= 8 * |a| {
        var j := i - 8 * |a|;
        assert i / 8 == |a| + j / 8 && i % 8 == j % 8;
      }
    }
  }

  lemma ByteBitsSlice(data: seq<byte>, i: nat)
    requires i < |data|
    ensures ByteBits(data)[8 * i..8 * i + 8] == Bits(data[i], 8)
  {
    hide Bits;
    forall j | 0 <= j < 8
      ensures ByteBits(data)[8 * i + j] == Bits(data[i], 8)[j]
    {
      assert (8 * i + j) / 8 == i && (8 * i + j) % 8 == j;
    }
  }

  /** The byte eight bits spell. */
  function GroupByte(group: seq<bool>): byte
    requires |group| == 8
  {
    ValueBound(group);
    EightBits(group);
    Value(group)
  }

  lemma EightBits(s: seq<bool>)
    requires |s| == 8
    ensures Pow2(|s|) == 256
  {}

  function ByteAt(bits: seq<bool>, at: nat): byte
    requires at + 8 <= |bits|
  {
    GroupByte(bits[at..at + 8])
  }

  /** The whole bytes of a bit string; what is left over is dropped. */
  function WholeBytes(s: seq<bool>): (bytes: seq<byte>)
    ensures |bytes| == |s| / 8
  {
    seq(|s| / 8, k requires 0 <= k < |s| / 8 => GroupByte(s[8 * k..8 * k + 8]))
  }
}
