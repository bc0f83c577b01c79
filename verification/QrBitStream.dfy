/**
 The bit stream of a QR symbol in byte mode (ISO/IEC 18004 section 7.4): mode,
 character count, message, terminator, padding; and the reader's parse of it.
 */
module QrBitStream {
  import opened Basics
  import opened BitString
  import opened ByteString
  import opened QrTables

  const MODE_BYTE := 4

  /** What the encoder writes for a message before any padding. */
  function MessageBits(bytes: seq<byte>, version: Version): seq<bool> {
    Bits(MODE_BYTE, 4) + Bits(|bytes|, CountBits(version)) + ByteBits(bytes)
  }

  /** The zero bits that follow `used` message bits: the terminator, then the rest of a codeword. */
  function ZeroBits(used: nat, capacity: nat): nat
    requires used <= 8 * capacity
  {
    var terminator := if 8 * capacity - used < 4 then 8 * capacity - used else 4;
    terminator + (8 - (used + terminator) % 8) % 8
  }

  lemma ZeroBitsFit(used: nat, capacity: nat)
    requires used <= 8 * capacity
    ensures used + ZeroBits(used, capacity) <= 8 * capacity
    ensures (used + ZeroBits(used, capacity)) % 8 == 0
  {}

  /** The alternating padding codewords. */
  function Pad(index: nat): byte { if index % 2 == 0 then 0xEC else 0x11 }

  /** `data` is the message padded to exactly `capacity` codewords as section 7.4.9 and 7.4.10 ask. */
  ghost predicate IsPadded(data: seq<byte>, bytes: seq<byte>, version: Version, capacity: nat) {
    var message := MessageBits(bytes, version);
    && |data| == capacity
    && |message| <= 8 * capacity
    && var zeros := ZeroBits(|message|, capacity);
       var used := (|message| + zeros) / 8;
       && used <= capacity
       && ByteBits(data[..used]) == message + seq(zeros, _ => false)
       && forall k :: used <= k < capacity ==> data[k] == Pad(k - used)
  }

  // ----- The encoder's loops -----

  /** Append the `width` low bits of `value`, by shifting from the top. */
  method PushBits(bits: seq<bool>, value: nat, width: nat) returns (r: seq<bool>)
    ensures r == bits + Bits(value, width)
  {
    r := bits;
    ghost var target := Bits(value, width);
    for k := 0 to width
      invariant r == bits + target[..k]
    {
      var shift := width - 1 - k;
      BitByShift(value, width, k);
      r := r + [value / Pow2(shift) % 2 == 1];
    }
  }

  lemma PackStep(chunk: seq<bool>, index: nat)
    requires index < |chunk| == 8
    ensures Value(chunk[..index + 1]) * Pow2(7 - index)
         == Value(chunk[..index]) * Pow2(8 - index) + (if chunk[index] then Pow2(7 - index) else 0)
  {
    assert chunk[..index + 1][..index] == chunk[..index];
    var v, p, d := Value(chunk[..index]), Pow2(7 - index), Digit(chunk[index]);
    assert Pow2(8 - index) == 2 * p && Value(chunk[..index + 1]) == 2 * v + d;
    PackAlgebra(v, p, d);
  }

  lemma PackAlgebra(v: nat, p: nat, d: nat)
    requires d < 2
    ensures (2 * v + d) * p == v * (2 * p) + if d == 1 then p else 0
  {
    assert (2 * v + d) * p == v * (2 * p) + d * p;
  }

  /** One codeword out of eight bits, by setting bit `7 - index` for each. */
  method PackByte(chunk: seq<bool>) returns (b: byte)
    requires |chunk| == 8
    ensures b == Value(chunk)
  {
    assert Pow2(0) == 1 && Pow2(8) == 256 && Value(chunk[..0]) == 0;
    hide Value, Pow2;
    var n := 0;
    for index := 0 to 8
      invariant n == Value(chunk[..index]) * Pow2(8 - index)
    {
      PackStep(chunk, index);
      if chunk[index] {
        n := n + Pow2(7 - index);
      }
    }
    assert chunk[..8] == chunk;
    ValueBound(chunk);
    b := n;
  }

  lemma ByteBitsPush(data: seq<byte>, b: byte, chunk: seq<bool>)
    requires |chunk| == 8 && b == Value(chunk)
    ensures ByteBits(data + [b]) == ByteBits(data) + chunk
  {
    hide Bits, Value;
    BitsOfValue(chunk);
    ByteBitsAppend(data, [b]);
    ByteBitsSlice([b], 0);
  }

  method PackBytes(bits: seq<bool>) returns (data: seq<byte>)
    requires |bits| % 8 == 0
    ensures |data| == |bits| / 8 && ByteBits(data) == bits
  {
    hide ByteBits, Value;
    data := [];
    for i := 0 to |bits| / 8
      invariant |data| == i && ByteBits(data) == bits[..8 * i]
    {
      var chunk := bits[8 * i..8 * i + 8];
      var b := PackByte(chunk);
      ByteBitsPush(data, b, chunk);
      data := data + [b];
      assert bits[..8 * i] + chunk == bits[..8 * (i + 1)];
    }
  }

  /** Mode, count and message. */
  method PushMessage(bytes: seq<byte>, version: Version) returns (bits: seq<bool>)
    ensures bits == MessageBits(bytes, version)
  {
    hide Bits;
    bits := PushBits([], MODE_BYTE, 4);
    bits := PushBits(bits, |bytes|, CountBits(version));
    ghost var header := bits;
    for i := 0 to |bytes|
      invariant bits == header + ByteBits(bytes[..i])
    {
      ByteBitsAppend(bytes[..i], [bytes[i]]);
      ByteBitsSlice([bytes[i]], 0);
      assert bytes[..i + 1] == bytes[..i] + [bytes[i]];
      bits := PushBits(bits, bytes[i], 8);
    }
    assert bytes[..|bytes|] == bytes;
  }

  /** The terminator, and zeros up to a codeword boundary. */
  method PushZeros(message: seq<bool>, capacity: nat) returns (bits: seq<bool>)
    requires |message| <= 8 * capacity
    ensures bits == message + seq(ZeroBits(|message|, capacity), _ => false)
  {
    var room := capacity * 8 - |message|;
    var terminator := if room < 4 then room else 4;
    bits := PushBits(message, 0, terminator);
    bits := PushBits(bits, 0, (8 - |bits| % 8) % 8);
    BitsOfZero(terminator);
    BitsOfZero(ZeroBits(|message|, capacity) - terminator);
  }

  /** Everything up to the block split: bit stream, terminator, alignment and padding codewords. */
  method PadMessage(bytes: seq<byte>, version: Version, capacity: nat) returns (data: seq<byte>)
    requires 4 + CountBits(version) + 8 * |bytes| <= 8 * capacity
    ensures IsPadded(data, bytes, version, capacity)
  {
    hide Bits, ByteBits;
    var message := PushMessage(bytes, version);
    var bits := PushZeros(message, capacity);
    ZeroBitsFit(|message|, capacity);
    hide ZeroBits;
    data := PackBytes(bits);
    ghost var packed := data;
    var used := |data|;
    for index := 0 to capacity - used
      invariant |data| == |packed| + index && packed <= data
      invariant forall k :: |packed| <= k < |data| ==> data[k] == Pad(k - |packed|)
    {
      data := data + [if index % 2 == 0 then 0xEC else 0x11];
    }
    assert data[..|packed|] == packed;
  }

  // ----- The reader -----

  /** Parse mode, count and message back out of the data codewords. */
  function ParseMessage(data: seq<byte>, version: Version): Option<seq<byte>> {
    hide Value, ByteBits, GroupByte;
    var bits := ByteBits(data);
    var start := 4 + CountBits(version);
    if |bits| < start || Value(bits[..4]) != MODE_BYTE then None
    else
      var count := Value(bits[4..start]);
      if |bits| < start + 8 * count then None
      else Some(seq(count, i requires 0 <= i < count => ByteAt(bits, start + 8 * i)))
  }

  lemma PaddedStartsWithMessage(data: seq<byte>, bytes: seq<byte>, version: Version, capacity: nat)
    requires IsPadded(data, bytes, version, capacity)
    ensures MessageBits(bytes, version) <= ByteBits(data)
  {
    hide Bits, ZeroBits;
    var message := MessageBits(bytes, version);
    var used := (|message| + ZeroBits(|message|, capacity)) / 8;
    ByteBitsAppend(data[..used], data[used..]);
    assert data == data[..used] + data[used..];
  }

  lemma MessageByte(bits: seq<bool>, bytes: seq<byte>, version: Version, i: nat)
    requires MessageBits(bytes, version) <= bits
    requires i < |bytes|
    ensures ByteAt(bits, 4 + CountBits(version) + 8 * i) == bytes[i]
  {
    hide Bits, Value, Pow2;
    var at := 4 + CountBits(version) + 8 * i;
    ByteBitsSlice(bytes, i);
    assert bits[at..at + 8] == MessageBits(bytes, version)[at..at + 8] == ByteBits(bytes)[8 * i..8 * i + 8];
    SmallPowers();
    ValueOfBits(bytes[i], 8);
  }

  lemma SmallPowers()
    ensures Pow2(4) == 16 && Pow2(8) == 256
  {}

  /** Parsing undoes the encoder's stream, for every message whose count fits its indicator. */
  lemma ParseUndoesPadding(data: seq<byte>, bytes: seq<byte>, version: Version, capacity: nat)
    requires IsPadded(data, bytes, version, capacity)
    requires |bytes| < Pow2(CountBits(version))
    ensures ParseMessage(data, version) == Some(bytes)
  {
    hide ByteBits, ByteAt, IsPadded;
    var message, bits, start := MessageBits(bytes, version), ByteBits(data), 4 + CountBits(version);
    PaddedStartsWithMessage(data, bytes, version, capacity);
    HeaderReadsBack(bits, bytes, version);
    var parsed := ParseMessage(data, version);
    assert parsed.Some? && |parsed.value| == |bytes|;
    forall i | 0 <= i < |bytes|
      ensures parsed.value[i] == bytes[i]
    {
      MessageByte(bits, bytes, version, i);
    }
    assert parsed.value == bytes;
  }

  lemma HeaderReadsBack(bits: seq<bool>, bytes: seq<byte>, version: Version)
    requires MessageBits(bytes, version) <= bits
    requires |bytes| < Pow2(CountBits(version))
    ensures |bits| >= 4 + CountBits(version) + 8 * |bytes|
    ensures Value(bits[..4]) == MODE_BYTE && Value(bits[4..4 + CountBits(version)]) == |bytes|
  {
    hide ByteBits;
    var message, start := MessageBits(bytes, version), 4 + CountBits(version);
    assert bits[..4] == message[..4] == Bits(MODE_BYTE, 4);
    assert bits[4..start] == message[4..start] == Bits(|bytes|, CountBits(version));
    SmallPowers();
    ValueOfBits(MODE_BYTE, 4);
    ValueOfBits(|bytes|, CountBits(version));
  }
}
