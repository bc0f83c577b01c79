/**
 Base32 as section 6 of RFC 4648 defines it, unpadded, through an accumulator
 of 32 bits that wraps; and decoding the way a person types.
 */
module Base32 {
  import opened Basics
  import opened BitString
  import opened ByteString

  const ALPHABET := "ABCDEFGHIJKLMNOPQRSTUVWXYZ234567"

  function Letter(v: nat): char
    requires v < 32
  {
    ALPHABET[v]
  }

  /** What a 32-bit register keeps of a number. */
  function Word(n: nat): (w: nat)
  {
    n % 0x1_0000_0000
  }

  // ----- What the texts mean -----

  /** A bit string made up to a multiple of five with zeros on the right. */
  function Filled(s: seq<bool>): (t: seq<bool>)
    ensures |t| % 5 == 0 && |s| <= |t| < |s| + 5 && t[..|s|] == s
  {
    s + Zeros((5 - |s| % 5) % 5)
  }

  /** The letter of each group of five bits. */
  function Letters(s: seq<bool>): (text: string)
    requires |s| % 5 == 0
    ensures |text| == |s| / 5
  {
    seq(|s| / 5, k requires 0 <= k < |s| / 5 => GroupLetter(s[5 * k..5 * k + 5]))
  }

  function GroupLetter(group: seq<bool>): char
    requires |group| == 5
  {
    ValueBound(group);
    FiveBits(group);
    Letter(Value(group))
  }

  lemma FiveBits(s: seq<bool>)
    requires |s| == 5
    ensures Pow2(|s|) == 32
  {}

  /** The text of a byte string. */
  function Encoded(bytes: seq<byte>): string {
    Letters(Filled(ByteBits(bytes)))
  }

  predicate IsSpace(c: char) {
    var n := c as int;
    9 <= n <= 13 || n == 32 || n == 0x85 || n == 0xA0 || n == 0x1680 || 0x2000 <= n <= 0x200A
    || n == 0x2028 || n == 0x2029 || n == 0x202F || n == 0x205F || n == 0x3000
  }

  predicate Ignored(c: char) {
    c == '=' || IsSpace(c)
  }

  /** The value of a letter in either case, or of a digit. */
  function LetterValue(c: char): (v: Option<nat>)
    ensures v.Some? ==> v.value < 32
  {
    if 'A' <= c <= 'Z' then Some(c as int - 'A' as int)
    else if 'a' <= c <= 'z' then Some(c as int - 'a' as int)
    else if '2' <= c <= '7' then Some(c as int - '2' as int + 26)
    else None
  }

  /** The bits a text spells, unless it holds something that is neither a letter nor ignored. */
  function Spelt(text: string): Option<seq<bool>> {
    if text == [] then Some([]) else
      var front, c := Spelt(text[..|text| - 1]), text[|text| - 1];
      if Ignored(c) then front
      else match (front, LetterValue(c))
           case (Some(s), Some(v)) => Some(s + Bits(v, 5))
           case _ => None
  }

  function Decoded(text: string): Option<seq<byte>> {
    match Spelt(text)
    case Some(s) => Some(WholeBytes(s))
    case None => None
  }

  // ----- The register -----

  /** The low bits of a number survive wrapping. */
  lemma {:induction false} LowBitsSurvive(n: nat, modulus: nat, width: nat)
    requires modulus > 0 && modulus % Pow2(width) == 0
    ensures Bits(n % modulus, width) == Bits(n, width)
    decreases width
  {
    if width > 0 {
      var half := modulus / 2;
      var k := modulus / Pow2(width);
      assert modulus == k * Pow2(width) == 2 * (k * Pow2(width - 1));
      assert half == k * Pow2(width - 1);
      QuotientIs(half, Pow2(width - 1), k, 0);
      HalfOfRemainder(n, half);
      LowBitsSurvive(n / 2, half, width - 1);
    }
  }

  lemma HalfOfRemainder(n: nat, half: nat)
    requires half > 0
    ensures n % (2 * half) / 2 == n / 2 % half && n % (2 * half) % 2 == n % 2
  {
    var q, r := DivMod(n / 2, half);
    var low := n % 2;
    assert n == 2 * (q * half + r) + low == (2 * half) * q + (2 * r + low);
    QuotientIs(n, 2 * half, q, 2 * r + low);
  }

  /** A shift to the right drops the last bits. */
  lemma {:induction false} ShiftRight(n: nat, width: nat, k: nat)
    ensures Bits(n, width + k) == Bits(Div(n, Pow2(k)), width) + Bits(n, k)
    decreases k
  {
    if k > 0 {
      ShiftRight(n / 2, width, k - 1);
      DivideTwice(n, Pow2(k - 1));
    } else {
      assert Div(n, Pow2(k)) == n;
    }
  }

  lemma {:induction false} ValueOfLowBits(n: nat, width: nat)
    ensures Value(Bits(n, width)) == n % Pow2(width)
    decreases width
  {
    if width > 0 {
      var s := Bits(n, width);
      assert s[..|s| - 1] == Bits(n / 2, width - 1);
      ValueOfLowBits(n / 2, width - 1);
      HalfOfRemainder(n, Pow2(width - 1));
    }
  }

  lemma {:induction false} Pow2Splits(a: nat, b: nat)
    ensures Pow2(a + b) == Pow2(a) * Pow2(b)
    decreases b
  {
    if b > 0 {
      Pow2Splits(a, b - 1);
    }
  }

  lemma Powers()
    ensures Pow2(5) == 32 && Pow2(8) == 256
  {}

  lemma LargePowers()
    ensures Pow2(24) == 0x100_0000 && Pow2(27) == 0x800_0000 && Pow2(32) == 0x1_0000_0000
  {
    Powers();
    Pow2Splits(8, 8);
    Pow2Splits(16, 8);
    Pow2Splits(24, 8);
    Pow2Splits(27, 5);
  }

  lemma PowerDivides(width: nat, total: nat)
    requires width <= total
    ensures Pow2(total) % Pow2(width) == 0
  {
    Pow2Splits(width, total - width);
    QuotientIs(Pow2(total), Pow2(width), Pow2(total - width), 0);
  }

  /** Shifting a byte into the register keeps the pending bits and adds the byte's. */
  lemma ShiftIn(buffer: nat, value: nat, bits: nat, width: nat, scale: nat)
    requires bits <= 12 && scale == Pow2(width) && value < scale && (scale == 256 || scale == 32)
    ensures Word(buffer * scale) % scale == 0
    ensures Bits(Word(buffer * scale) + value, bits + width) == Bits(buffer, bits) + Bits(value, width)
  {
    hide Word, Bits, Pow2;
    var rest := if scale == 256 then 0x100_0000 else 0x800_0000;
    ShiftedRegister(buffer, scale, rest);
    QuotientIs(buffer % rest * scale, scale, buffer % rest, 0);
    BitsOfTwoFields(buffer % rest, value, bits, width);
    RestDivides(bits, rest);
    LowBitsSurvive(buffer, rest, bits);
  }

  lemma ShiftedRegister(buffer: nat, scale: nat, rest: nat)
    requires rest > 0 && scale > 0 && scale * rest == 0x1_0000_0000
    ensures Word(buffer * scale) == buffer % rest * scale
  {
    var q, high := DivMod(buffer, rest);
    assert buffer * scale == (scale * rest) * q + high * scale;
    ProductGrows(scale, high + 1, rest);
    QuotientIs(buffer * scale, scale * rest, q, high * scale);
  }

  lemma RestDivides(bits: nat, rest: nat)
    requires bits <= 12 && (rest == 0x100_0000 || rest == 0x800_0000)
    ensures rest % Pow2(bits) == 0
  {
    LargePowers();
    hide Pow2;
    PowerDivides(bits, if rest == 0x100_0000 then 24 else 27);
  }

  // ----- Encoding -----

  predicate LettersFit(all: seq<bool>, out: string) {
    5 * |out| <= |all| && forall k :: 0 <= k < |out| ==> out[k] == GroupLetter(all[5 * k..5 * k + 5])
  }

  /** So much has been written; the rest is in the register. */
  predicate Encoding(all: seq<bool>, out: string, buffer: nat, bits: nat) {
    LettersFit(all, out) && 5 * |out| + bits == |all| && Bits(buffer, bits) == all[|all| - bits..]
  }

  lemma LettersStillFit(all: seq<bool>, more: seq<bool>, out: string)
    requires LettersFit(all, out) && all <= more
    ensures LettersFit(more, out)
  {
    hide GroupLetter;
    assert forall k :: 0 <= k < |out| ==> more[5 * k..5 * k + 5] == all[5 * k..5 * k + 5];
  }

  lemma OneMoreLetter(all: seq<bool>, out: string, n: nat, group: seq<bool>)
    requires LettersFit(all, out) && 5 * |out| + 5 <= |all| && group == all[5 * |out|..5 * |out| + 5]
             && group == Bits(n, 5)
    ensures LettersFit(all, out + [Letter(n % 32)])
  {
    ValueOfLowBits(n, 5);
    Powers();
    assert GroupLetter(group) == Letter(n % 32);
    hide Bits, Pow2, GroupLetter;
  }

  lemma Feed(all: seq<bool>, out: string, buffer: nat, bits: nat, b: byte)
    requires Encoding(all, out, buffer, bits) && bits < 5
    ensures Encoding(all + Bits(b, 8), out, Word(buffer * 256) + b, bits + 8)
  {
    hide Bits, Word, LettersFit, Pow2;
    Powers();
    ShiftIn(buffer, b, bits, 8, 256);
    var more := all + Bits(b, 8);
    LettersStillFit(all, more, out);
    assert more[|more| - (bits + 8)..] == all[|all| - bits..] + Bits(b, 8);
  }

  lemma Emit(all: seq<bool>, out: string, buffer: nat, bits: nat)
    requires Encoding(all, out, buffer, bits) && bits >= 5
    ensures Encoding(all, out + [Letter(Div(buffer, Pow2(bits - 5)) % 32)], buffer, bits - 5)
  {
    hide Bits, Pow2, Div, LettersFit, Letter;
    var n := Div(buffer, Pow2(bits - 5));
    ShiftRight(buffer, 5, bits - 5);
    var pending := all[|all| - bits..];
    assert pending[..5] == Bits(n, 5) && pending[5..] == Bits(buffer, bits - 5);
    assert all[5 * |out|..5 * |out| + 5] == pending[..5];
    assert all[|all| - (bits - 5)..] == pending[5..];
    OneMoreLetter(all, out, n, pending[..5]);
  }

  /** The last group, with zeros on its right. */
  lemma LastGroup(buffer: nat, bits: nat)
    requires 0 < bits < 5
    ensures Bits(Word(buffer * Pow2(5 - bits)), 5) == Bits(buffer, bits) + Zeros(5 - bits)
  {
    hide Bits, Pow2;
    var width := 5 - bits;
    BitsOfTwoFields(buffer, 0, bits, width);
    BitsOfZero(width);
    LargePowers();
    PowerDivides(5, 32);
    LowBitsSurvive(buffer * Pow2(width), 0x1_0000_0000, 5);
  }

  lemma Finish(all: seq<bool>, out: string, buffer: nat, bits: nat)
    requires Encoding(all, out, buffer, bits) && 0 < bits < 5
    ensures LettersFit(Filled(all), out + [Letter(Word(buffer * Pow2(5 - bits)) % 32)])
  {
    hide Bits, Pow2, LettersFit, Word, Letter;
    LastGroup(buffer, bits);
    var filled := Filled(all);
    var group := all[|all| - bits..] + Zeros(5 - bits);
    LettersStillFit(all, filled, out);
    assert filled[5 * |out|..5 * |out| + 5] == group;
    OneMoreLetter(filled, out, Word(buffer * Pow2(5 - bits)), group);
  }

  lemma AllWritten(all: seq<bool>, out: string)
    requires LettersFit(Filled(all), out) && 5 * |out| == |Filled(all)|
    ensures out == Letters(Filled(all))
  {
    hide GroupLetter, Filled;
  }

  /** Encode bytes as unpadded upper-case base32. */
  method Encode(bytes: seq<byte>) returns (out: string)
    ensures out == Encoded(bytes)
  {
    hide Bits, ByteBits, Pow2, LettersFit, Letters, Filled, Word, Div;
    out := "";
    var buffer: nat, bits: nat := 0, 0;
    NothingYet();
    ghost var all: seq<bool> := [];
    for i := 0 to |bytes|
      invariant all == ByteBits(bytes[..i]) && bits < 5 && Encoding(all, out, buffer, bits)
    {
      Feed(all, out, buffer, bits, bytes[i]);
      buffer := Word(buffer * 256) + bytes[i];
      bits := bits + 8;
      OneMoreByteBits(bytes, i);
      all := all + Bits(bytes[i], 8);
      while bits >= 5
        invariant all == ByteBits(bytes[..i + 1]) && Encoding(all, out, buffer, bits)
      {
        Emit(all, out, buffer, bits);
        bits := bits - 5;
        out := out + [Letter(Div(buffer, Pow2(bits)) % 32)];
      }
    }
    assert bytes[..|bytes|] == bytes;
    if bits > 0 {
      Finish(all, out, buffer, bits);
      out := out + [Letter(Word(buffer * Pow2(5 - bits)) % 32)];
    }
    FilledLength(all, bits, |out|);
    AllWritten(all, out);
  }

  lemma OneMoreByteBits(bytes: seq<byte>, i: nat)
    requires i < |bytes|
    ensures ByteBits(bytes[..i + 1]) == ByteBits(bytes[..i]) + Bits(bytes[i], 8)
  {
    hide ByteBits, Bits;
    assert bytes[..i + 1] == bytes[..i] + [bytes[i]];
    ByteBitsAppend(bytes[..i], [bytes[i]]);
    ByteBitsSlice([bytes[i]], 0);
    assert ByteBits([bytes[i]])[8 * 0..8 * 0 + 8] == ByteBits([bytes[i]]);
  }

  lemma NothingYet()
    ensures Encoding([], "", 0, 0) && ByteBits([]) == []
  {}

  lemma FilledLength(all: seq<bool>, bits: nat, n: nat)
    requires bits < 5 && |all| == 5 * (if bits > 0 then n - 1 else n) + bits
    ensures |Filled(all)| == 5 * n && (bits == 0 ==> Filled(all) == all)
  {}

  // ----- Decoding -----

  predicate BytesFit(all: seq<bool>, out: seq<byte>) {
    8 * |out| <= |all| && forall k :: 0 <= k < |out| ==> out[k] == GroupByte(all[8 * k..8 * k + 8])
  }

  predicate Decoding(all: seq<bool>, out: seq<byte>, buffer: nat, bits: nat) {
    BytesFit(all, out) && 8 * |out| + bits == |all| && Bits(buffer, bits) == all[|all| - bits..]
  }

  lemma BytesStillFit(all: seq<bool>, more: seq<bool>, out: seq<byte>)
    requires BytesFit(all, out) && all <= more
    ensures BytesFit(more, out)
  {
    hide GroupByte;
    assert forall k :: 0 <= k < |out| ==> more[8 * k..8 * k + 8] == all[8 * k..8 * k + 8];
  }

  lemma OneMoreByte(all: seq<bool>, out: seq<byte>, n: nat, group: seq<bool>)
    requires BytesFit(all, out) && 8 * |out| + 8 <= |all| && group == all[8 * |out|..8 * |out| + 8]
             && group == Bits(n, 8)
    ensures BytesFit(all, out + [n % 256])
  {
    ValueOfLowBits(n, 8);
    Powers();
    assert GroupByte(group) == n % 256;
    hide Bits, Pow2, GroupByte;
  }

  lemma FeedLetter(all: seq<bool>, out: seq<byte>, buffer: nat, bits: nat, v: nat)
    requires Decoding(all, out, buffer, bits) && bits < 8 && v < 32
    ensures Decoding(all + Bits(v, 5), out, Word(buffer * 32) + v, bits + 5)
  {
    hide Bits, Word, BytesFit, Pow2;
    Powers();
    ShiftIn(buffer, v, bits, 5, 32);
    var more := all + Bits(v, 5);
    BytesStillFit(all, more, out);
    assert more[|more| - (bits + 5)..] == all[|all| - bits..] + Bits(v, 5);
  }

  lemma EmitByte(all: seq<bool>, out: seq<byte>, buffer: nat, bits: nat)
    requires Decoding(all, out, buffer, bits) && bits >= 8
    ensures Decoding(all, out + [Div(buffer, Pow2(bits - 8)) % 256], buffer, bits - 8)
  {
    hide Bits, Pow2, Div, BytesFit;
    var n := Div(buffer, Pow2(bits - 8));
    ShiftRight(buffer, 8, bits - 8);
    var pending := all[|all| - bits..];
    assert pending[..8] == Bits(n, 8) && pending[8..] == Bits(buffer, bits - 8);
    assert all[8 * |out|..8 * |out| + 8] == pending[..8];
    assert all[|all| - (bits - 8)..] == pending[8..];
    OneMoreByte(all, out, n, pending[..8]);
  }

  lemma AllRead(all: seq<bool>, out: seq<byte>)
    requires BytesFit(all, out) && |all| - 8 * |out| < 8
    ensures out == WholeBytes(all)
  {
    hide GroupByte;
    assert |out| == |all| / 8;
  }

  lemma NothingRead()
    ensures Decoding([], [], 0, 0)
  {}

  lemma SpeltStep(text: string, i: nat)
    requires i < |text|
    ensures Spelt(text[..i + 1]) == (
      if Ignored(text[i]) then Spelt(text[..i])
      else match (Spelt(text[..i]), LetterValue(text[i]))
           case (Some(s), Some(v)) => Some(s + Bits(v, 5))
           case _ => None)
  {
    hide Ignored, LetterValue, Bits;
    assert text[..i + 1][..i] == text[..i];
  }

  lemma {:induction false} NonsenseStays(text: string, i: nat)
    requires i <= |text| && Spelt(text[..i]).None?
    ensures Spelt(text).None?
    decreases |text| - i
  {
    if i == |text| {
      assert text[..i] == text;
    } else {
      SpeltStep(text, i);
      NonsenseStays(text, i + 1);
    }
  }

  /** What a person may type: a letter of the alphabet in either case, padding or white space. */
  predicate MayBeTyped(c: char) {
    'A' <= c <= 'Z' || 'a' <= c <= 'z' || '2' <= c <= '7' || c == '=' || IsSpace(c)
  }

  lemma TypedIsRead(c: char)
    ensures MayBeTyped(c) <==> Ignored(c) || LetterValue(c).Some?
  {}

  /** A text is refused exactly if it holds anything else. */
  lemma {:induction false} RefusedExactly(text: string)
    ensures Decoded(text).None? <==> exists i :: 0 <= i < |text| && !MayBeTyped(text[i])
  {
    if text != [] {
      var n := |text| - 1;
      RefusedExactly(text[..n]);
      TypedIsRead(text[n]);
      hide Ignored, LetterValue, MayBeTyped, Bits, WholeBytes;
      if exists i :: 0 <= i < |text| && !MayBeTyped(text[i]) {
        var i :| 0 <= i < |text| && !MayBeTyped(text[i]);
        assert i < n ==> text[..n][i] == text[i];
      }
    }
  }

  /** Decode base32, the way a person types it. */
  method Decode(text: string) returns (r: Option<seq<byte>>)
    ensures r == Decoded(text)
    ensures r.None? <==> exists i :: 0 <= i < |text| && !MayBeTyped(text[i])
  {
    RefusedExactly(text);
    hide Bits, Pow2, BytesFit, WholeBytes, Word, Div, Ignored, LetterValue, Spelt, MayBeTyped;
    var out: seq<byte> := [];
    var buffer: nat, bits: nat := 0, 0;
    NothingRead();
    EmptySpelt();
    ghost var all: seq<bool> := [];
    for i := 0 to |text|
      invariant Spelt(text[..i]) == Some(all) && bits < 8 && Decoding(all, out, buffer, bits)
    {
      SpeltStep(text, i);
      if !Ignored(text[i]) {
        match LetterValue(text[i])
        case None =>
          NonsenseStays(text, i + 1);
          return None;
        case Some(v) =>
          FeedLetter(all, out, buffer, bits, v);
          buffer := Word(buffer * 32) + v;
          bits := bits + 5;
          all := all + Bits(v, 5);
          if bits >= 8 {
            EmitByte(all, out, buffer, bits);
            bits := bits - 8;
            out := out + [Div(buffer, Pow2(bits)) % 256];
          }
      }
    }
    assert text[..|text|] == text;
    AllRead(all, out);
    r := Some(out);
  }

  lemma EmptySpelt()
    ensures Spelt([]) == Some([])
  {}

  // ----- The round trip -----

  lemma LetterReadsBack(v: nat)
    requires v < 32
    ensures !Ignored(Letter(v)) && LetterValue(Letter(v)) == Some(v)
  {
    LetterCode(v);
    hide Letter;
  }

  lemma LetterCode(v: nat)
    requires v < 32
    ensures Letter(v) as int == if v < 26 then 'A' as int + v else '2' as int + v - 26
  {}

  lemma {:induction false} LettersReadBack(s: seq<bool>)
    requires |s| % 5 == 0
    ensures Spelt(Letters(s)) == Some(s)
    decreases |s|
  {
    hide GroupLetter, Bits;
    if s != [] {
      var n := |s| / 5 - 1;
      var front, last := s[..5 * n], s[5 * n..];
      var text := Letters(s);
      assert s[5 * n..5 * n + 5] == last;
      forall k | 0 <= k < n
        ensures text[..n][k] == Letters(front)[k]
      {
        assert front[5 * k..5 * k + 5] == s[5 * k..5 * k + 5];
      }
      assert text[..n] == Letters(front);
      LettersReadBack(front);
      GroupReadsBack(last);
      assert front + last == s;
    }
  }

  lemma GroupReadsBack(group: seq<bool>)
    requires |group| == 5
    ensures !Ignored(GroupLetter(group))
    ensures LetterValue(GroupLetter(group)).Some? && Bits(LetterValue(GroupLetter(group)).value, 5) == group
  {
    ValueBound(group);
    FiveBits(group);
    LetterReadsBack(Value(group));
    BitsOfValue(group);
  }

  lemma ByteReadsBack(b: byte)
    ensures GroupByte(Bits(b, 8)) == b
  {
    Powers();
    ValueOfBits(b, 8);
  }

  lemma BytesReadBack(bytes: seq<byte>)
    ensures WholeBytes(Filled(ByteBits(bytes))) == bytes
  {
    hide GroupByte, Bits, ByteBits;
    var all := ByteBits(bytes);
    var filled := Filled(all);
    forall k | 0 <= k < |bytes|
      ensures WholeBytes(filled)[k] == bytes[k]
    {
      ByteBitsSlice(bytes, k);
      assert filled[8 * k..8 * k + 8] == all[8 * k..8 * k + 8];
      ByteReadsBack(bytes[k]);
    }
  }

  /** Decoding what was encoded gives the bytes back, whatever the register dropped on the way. */
  lemma DecodeUndoesEncode(bytes: seq<byte>)
    ensures Decoded(Encoded(bytes)) == Some(bytes)
  {
    hide Letters, Filled, WholeBytes;
    LettersReadBack(Filled(ByteBits(bytes)));
    BytesReadBack(bytes);
  }

  /** Eight bits to a byte, five to a letter, the last letter filled up. */
  lemma EncodedLength(bytes: seq<byte>)
    ensures |Encoded(bytes)| == (8 * |bytes| + 4) / 5
  {}

  // ----- What does not matter -----

  lemma {:induction false} SpeltIgnores(a: string, c: char, b: string)
    requires Ignored(c)
    ensures Spelt(a + [c] + b) == Spelt(a + b)
    decreases |b|
  {
    hide Ignored, Bits;
    var s, t := a + [c] + b, a + b;
    if b == [] {
      assert s[..|s| - 1] == a && t == a;
    } else {
      var front := b[..|b| - 1];
      assert s[..|s| - 1] == a + [c] + front && t[..|t| - 1] == a + front;
      SpeltIgnores(a, c, front);
    }
  }

  /** The same letter in the same or the other case. */
  predicate Alike(c: char, d: char) {
    || c == d
    || ('A' <= c <= 'Z' && d as int == c as int + 32)
    || ('A' <= d <= 'Z' && c as int == d as int + 32)
  }

  lemma AlikeSpellsSame(c: char, d: char)
    requires Alike(c, d)
    ensures Ignored(c) == Ignored(d) && LetterValue(c) == LetterValue(d)
  {}

  lemma {:induction false} SpeltInAnyCase(s: string, t: string)
    requires |s| == |t| && forall i :: 0 <= i < |s| ==> Alike(s[i], t[i])
    ensures Spelt(s) == Spelt(t)
    decreases |s|
  {
    hide Ignored, LetterValue, Bits;
    if s != [] {
      SpeltInAnyCase(s[..|s| - 1], t[..|t| - 1]);
      AlikeSpellsSame(s[|s| - 1], t[|t| - 1]);
    }
  }

  /** White space, padding and case never change what a text decodes to. */
  lemma PresentationDoesNotMatter(a: string, c: char, b: string, t: string)
    requires Ignored(c) && |t| == |a + b| && forall i :: 0 <= i < |t| ==> Alike(t[i], (a + b)[i])
    ensures Decoded(a + [c] + b) == Decoded(a + b) == Decoded(t)
  {
    SpeltIgnores(a, c, b);
    SpeltInAnyCase(t, a + b);
  }
}
