/**
 The finished symbol, and the reader that undoes it: `EncodeWith` fails exactly
 when the data does not fit version 10, and otherwise yields a grid from which
 the data can be read back, level and mask included.
 */
module QrSymbol {
  import opened Basics
  import opened BitString
  import opened ByteString
  import opened QrTables
  import opened QrBitStream
  import opened QrBlocks
  import opened QrWalk
  import opened QrCanvas
  import opened QrPatterns
  import opened QrPenalty
  import opened QrRoom
  import G = Gf256

  datatype QrCode = QrCode(version: Version, size: nat, ecc: Ecc, mask: nat, dark: set<Pos>)

  // ----- The symbol as a function of its inputs -----

  ghost function ReservedSet(version: Version): (r: set<Pos>)
    ensures IsReservedSet(version, r)
  {
    var size := Size(version);
    set x, y | 0 <= x < size && 0 <= y < size && Reserved(version, Pos(x, y)) :: Pos(x, y)
  }

  lemma OneReservedSet(version: Version, r: set<Pos>)
    requires IsReservedSet(version, r)
    ensures r == ReservedSet(version)
  {}

  /** The format modules: both copies of the format, and the module that is always dark. */
  ghost predicate FormatDark(size: nat, bits: seq<bool>, p: Pos)
    requires |bits| == 15
  {
    || p == Pos(8, size - 8)
    || exists i :: 0 <= i < 15 && (p == FirstCopy(i) || p == SecondCopy(size, i)) && LowBit(bits, i)
  }

  /** Whether module `p` of the finished symbol is dark. */
  ghost predicate SymbolModule(version: Version, ecc: Ecc, codewords: seq<byte>, mask: nat, p: Pos)
    requires mask < 8
  {
    var size := Size(version);
    InGrid(size, p) &&
    if FormatZone(size, p) then FormatDark(size, FormatInfo(ecc, mask), p)
    else if Reserved(version, p) then PatternDark(version, p)
    else WalkIndex(size, p) >= 0 &&
         CodewordBit(codewords, FreeCount(size, ReservedSet(version), WalkIndex(size, p))) != MaskCondition(mask, p.x,
             p.y)
  }

  ghost function SymbolDark(version: Version, ecc: Ecc, codewords: seq<byte>, mask: nat): (dark: set<Pos>)
    requires mask < 8
    ensures forall p :: p in dark <==> SymbolModule(version, ecc, codewords, mask, p)
  {
    var size := Size(version);
    set x, y | 0 <= x < size && 0 <= y < size && SymbolModule(version, ecc, codewords, mask, Pos(x, y)) :: Pos(x, y)
  }

  // ----- The reader -----

  /** The walk again, reading instead of writing and removing the mask on the way past. */
  ghost function ReadBits(size: nat, reserved: set<Pos>, dark: set<Pos>, mask: nat, n: nat): seq<bool>
    requires GoodSize(size) && mask < 8 && n <= WalkLength(size)
  {
    if n == 0 then []
    else
      var p := WalkAt(size, n - 1);
      WalkIsBijection(size, n - 1, p);
      ReadBits(size, reserved, dark, mask, n - 1)
      + (if p in reserved then [] else [(p in dark) != MaskCondition(mask, p.x, p.y)])
  }

  /** Unmask, walk the zig-zag, regroup the codewords into blocks and parse the message. */
  ghost function ReadBack(code: QrCode): Option<seq<byte>>
    requires code.size == Size(code.version) && code.mask < 8
  {
    var codewords := WholeBytes(ReadBits(code.size, ReservedSet(code.version), code.dark, code.mask,
        WalkLength(code.size)));
    if |codewords| < TotalCodewords(code.version) then None
    else ReadMessage(codewords, code.version, code.ecc)
  }

  /** The level and mask a format word names: undo the fixed mask and drop the check bits. */
  function DecodeFormat(bits: seq<bool>): (Ecc, nat)
    requires |bits| == 15
  {
    var word := XorBits(bits, Bits(0x5412, 15));
    var level := Value(word[..2]);
    (if level == 1 then Low else if level == 0 then Medium else if level == 3 then Quartile
        else High, Value(word[2..5]))
  }

  /** The format word as the first copy shows it. */
  function FirstFormat(dark: set<Pos>): (s: seq<bool>)
    ensures |s| == 15
  {
    seq(15, i requires 0 <= i < 15 => FirstCopy(14 - i) in dark)
  }

  function SecondFormat(size: nat, dark: set<Pos>): (s: seq<bool>)
    ensures |s| == 15
  {
    seq(15, i requires 0 <= i < 15 => SecondCopy(size, 14 - i) in dark)
  }

  /** Read a symbol knowing nothing but its grid: version from the size, level and mask from the format. */
  ghost function Scan(size: nat, dark: set<Pos>): Option<seq<byte>> {
    if size < 21 || size > 57 || (size - 17) % 4 != 0 then None
    else
      var (ecc, mask) := DecodeFormat(FirstFormat(dark));
      if mask >= 8 then None
      else ReadBack(QrCode((size - 17) / 4, size, ecc, mask, dark))
  }

  // ----- Reading undoes drawing -----

  /** A free module of the walk, unmasked, shows its codeword bit. */
  lemma DataModule(version: Version, ecc: Ecc, codewords: seq<byte>, mask: nat, n: nat)
    requires mask < 8 && GoodSize(Size(version)) && n < WalkLength(Size(version))
    requires WalkAt(Size(version), n) !in ReservedSet(version)
    ensures var size, p := Size(version), WalkAt(Size(version), n);
            InGrid(size, p) &&
            ((p in SymbolDark(version, ecc, codewords, mask)) != MaskCondition(mask, p.x, p.y)
             <==> CodewordBit(codewords, FreeCount(size, ReservedSet(version), n)))
  {
    hide WalkAt, WalkIndex, WalkLength, MaskCondition, CodewordBit, FreeCount, PatternDark, FormatDark, FormatInfo,
        Alignment, VersionZone;
    var size, p := Size(version), WalkAt(Size(version), n);
    WalkIsBijection(size, n, p);
    assert FormatZone(size, p) ==> Reserved(version, p);
  }

  lemma {:induction false} ReadUndoesDraw(version: Version, ecc: Ecc, codewords: seq<byte>, mask: nat, n: nat)
    requires mask < 8 && GoodSize(Size(version)) && n <= WalkLength(Size(version))
    ensures var size, r := Size(version), ReservedSet(version);
            var bits := ReadBits(size, r, SymbolDark(version, ecc, codewords, mask), mask, n);
            |bits| == FreeCount(size, r, n) &&
            forall i :: 0 <= i < |bits| ==> bits[i] == CodewordBit(codewords, i)
  {
    hide WalkAt, WalkLength, MaskCondition, CodewordBit, Size, SymbolDark, ReservedSet;
    if n > 0 {
      ReadUndoesDraw(version, ecc, codewords, mask, n - 1);
      if WalkAt(Size(version), n - 1) !in ReservedSet(version) {
        DataModule(version, ecc, codewords, mask, n - 1);
      }
    }
  }

  lemma WholeBytesReadBack(bits: seq<bool>, codewords: seq<byte>)
    requires 8 * |codewords| <= |bits| < 8 * |codewords| + 8
    requires forall i :: 0 <= i < |bits| ==> bits[i] == CodewordBit(codewords, i)
    ensures WholeBytes(bits) == codewords
  {
    hide Bits, Value, CodewordBit, ByteBits;
    forall k | 0 <= k < 8 * |codewords|
      ensures bits[k] == ByteBits(codewords)[k]
    {
      CodewordBitIsByteBit(codewords, k);
    }
    forall i | 0 <= i < |codewords|
      ensures ByteAt(bits, 8 * i) == codewords[i]
    {
      ByteBitsSlice(codewords, i);
      assert bits[8 * i..8 * i + 8] == ByteBits(codewords)[8 * i..8 * i + 8];
      SmallPowers();
      ValueOfBits(codewords[i], 8);
    }
  }

  /** The codewords come back out of the finished symbol, whatever the mask. */
  lemma CodewordsReadBack(version: Version, ecc: Ecc, codewords: seq<byte>, mask: nat)
    requires mask < 8 && |codewords| == TotalCodewords(version)
    ensures GoodSize(Size(version))
    ensures WholeBytes(ReadBits(Size(version), ReservedSet(version), SymbolDark(version, ecc, codewords, mask), mask,
                                WalkLength(Size(version)))) == codewords
  {
    hide WalkLength, ReadBits, FreeCount, SymbolDark, ReservedSet, WholeBytes, CodewordBit, TotalCodewords;
    var size, r := Size(version), ReservedSet(version);
    SymbolHasRoom(version, r);
    ReadUndoesDraw(version, ecc, codewords, mask, WalkLength(size));
    WholeBytesReadBack(ReadBits(size, r, SymbolDark(version, ecc, codewords, mask), mask, WalkLength(size)), codewords);
  }

  lemma LevelOf(ecc: Ecc, mask: nat, word: seq<bool>, rest: seq<bool>)
    requires mask < 8 && |rest| == 10
    requires word == Bits(FormatLevel(ecc) * 8 + mask, 5) + rest
    ensures Value(word[..2]) == FormatLevel(ecc) && Value(word[2..5]) == mask
  {
    var level := FormatLevel(ecc);
    assert Pow2(3) == 8 && Pow2(2) == 4;
    BitsOfTwoFields(level, mask, 2, 3);
    hide Bits;
    assert word[..2] == Bits(level, 2) && word[2..5] == Bits(mask, 3);
    ValueOfBits(level, 2);
    ValueOfBits(mask, 3);
  }

  /** The format word names its level and mask. */
  lemma FormatReadsBack(ecc: Ecc, mask: nat)
    requires mask < 8
    ensures DecodeFormat(FormatInfo(ecc, mask)) == (ecc, mask)
  {
    hide CheckBits, XorBits, Bits;
    var data := FormatLevel(ecc) * 8 + mask;
    var rest := CheckBits(Bits(data, 10), Bits(0x137, 10), 10);
    XorTwice(Bits(data, 5) + rest, Bits(0x5412, 15));
    LevelOf(ecc, mask, Bits(data, 5) + rest, rest);
  }

  // ----- Building the symbol -----

  lemma FormatZoneIsCovered(size: nat, p: Pos)
    requires size >= 21 && FormatZone(size, p) && p != Pos(8, size - 8)
    ensures InGrid(size, p) && exists i :: 0 <= i < 15 && (p == FirstCopy(i) || p == SecondCopy(size, i))
  {
    var i := if p.y == 8 && p.x >= size - 8 then size - 1 - p.x
             else if p.x == 8 && p.y >= size - 7 then p.y - size + 15
             else if p.x == 8 then (if p.y <= 5 then p.y else p.y - 1)
             else if p.x == 7 then 8 else 14 - p.x;
    assert p == FirstCopy(i) || p == SecondCopy(size, i);
  }

  /** What the drawing steps leave behind, one after the other. */
  ghost predicate Steps(version: Version, ecc: Ecc, codewords: seq<byte>, mask: nat,
                        r: set<Pos>, d0: set<Pos>, d1: set<Pos>, d2: set<Pos>, r3: set<Pos>, d3: set<Pos>)
    requires mask < 8
  {
    var size := Size(version);
    && IsReservedSet(version, r)
    && (forall p :: p in d0 <==> PatternDark(version, p))
    && DrawnTo(size, r, codewords, d0, d1, WalkLength(size))
    && Masked(size, r, mask, d1, d2)
    && OnlyFormat(size, r, d2, r3, d3)
    && FirstCopyShows(d3, FormatInfo(ecc, mask), 15) && SecondCopyShows(size, d3, FormatInfo(ecc, mask), 15)
  }

  lemma StepsOnFormat(version: Version, ecc: Ecc, codewords: seq<byte>, mask: nat,
                      r: set<Pos>, d0: set<Pos>, d1: set<Pos>, d2: set<Pos>, r3: set<Pos>, d3: set<Pos>, p: Pos)
    requires mask < 8 && Steps(version, ecc, codewords, mask, r, d0, d1, d2, r3, d3)
    requires FormatZone(Size(version), p)
    ensures InGrid(Size(version), p) && (p in d3 <==> FormatDark(Size(version), FormatInfo(ecc, mask), p))
  {
    hide FormatInfo, Alignment, VersionZone, VersionInfo, MaskCondition, WalkIndex, WalkLength, CodewordBit;
    var size := Size(version);
    if p == Pos(8, size - 8) {
      assert Reserved(version, p) && PatternDark(version, p);
      assert !DrawsTo(size, r, p, WalkLength(size)) && !Flips(size, r, mask, p);
    } else {
      FormatZoneIsCovered(size, p);
    }
  }

  lemma StepsElsewhere(version: Version, ecc: Ecc, codewords: seq<byte>, mask: nat,
                       r: set<Pos>, d0: set<Pos>, d1: set<Pos>, d2: set<Pos>, r3: set<Pos>, d3: set<Pos>, p: Pos)
    requires mask < 8 && Steps(version, ecc, codewords, mask, r, d0, d1, d2, r3, d3)
    requires !FormatZone(Size(version), p)
    ensures p in d3 <==> SymbolModule(version, ecc, codewords, mask, p)
  {
    hide FormatInfo, FormatZone, Alignment, PatternDark, MaskCondition, WalkIndex, WalkLength, WalkAt, CodewordBit,
        FreeCount, FormatDark;
    var size, n := Size(version), WalkLength(Size(version));
    OneReservedSet(version, r);
    assert p in d2 <==> p in d3;
    assert p in d2 <==> ((p in d1) != Flips(size, r, mask, p));
    if InGrid(size, p) && !Reserved(version, p) {
      assert p.x != 6;
      WalkIsBijection(size, 0, p);
      assert WalkAt(size, WalkIndex(size, p)) !in r;
    } else {
      assert !DrawsTo(size, r, p, n) && !Flips(size, r, mask, p);
      assert p in d1 <==> p in d0;
      PatternsAreReserved(version, p);
    }
  }

  lemma PatternsAreReserved(version: Version, p: Pos)
    ensures PatternDark(version, p) ==> Reserved(version, p)
  {
    hide Alignment, VersionZone, VersionInfo, FormatZone;
  }

  /** The drawing steps determine every module of the symbol. */
  lemma StepsGiveSymbol(version: Version, ecc: Ecc, codewords: seq<byte>, mask: nat,
                        r: set<Pos>, d0: set<Pos>, d1: set<Pos>, d2: set<Pos>, r3: set<Pos>, d3: set<Pos>)
    requires mask < 8 && Steps(version, ecc, codewords, mask, r, d0, d1, d2, r3, d3)
    ensures d3 == SymbolDark(version, ecc, codewords, mask)
  {
    hide Steps, FormatInfo, FormatZone, FormatDark, Reserved, PatternDark;
    forall p
      ensures p in d3 <==> SymbolModule(version, ecc, codewords, mask, p)
    {
      if FormatZone(Size(version), p) {
        StepsOnFormat(version, ecc, codewords, mask, r, d0, d1, d2, r3, d3, p);
      } else {
        StepsElsewhere(version, ecc, codewords, mask, r, d0, d1, d2, r3, d3, p);
      }
    }
  }

  /** One candidate: a copy of the drawn canvas, masked and labelled with its format. */
  method Candidate(canvas: Canvas, version: Version, ecc: Ecc, codewords: seq<byte>, mask: nat, ghost blank: set<Pos>)
    returns (dark: set<Pos>)
    requires mask < 8 && canvas.size == Size(version) && IsReservedSet(version, canvas.reserved)
    requires forall p :: p in blank <==> PatternDark(version, p)
    requires DrawnTo(canvas.size, canvas.reserved, codewords, blank, canvas.dark, WalkLength(canvas.size))
    ensures dark == SymbolDark(version, ecc, codewords, mask)
  {
    hide IsReservedSet, PatternDark, DrawnTo, WalkLength, Masked, OnlyFormat, FirstCopyShows, SecondCopyShows,
        FormatInfo;
    var candidate := new Canvas.Copy(canvas);
    candidate.ApplyMask(mask);
    ghost var masked := candidate.dark;
    DrawFormatInfo(candidate, ecc, mask);
    dark := candidate.dark;
    StepsGiveSymbol(version, ecc, codewords, mask, canvas.reserved, blank, canvas.dark, masked, candidate.reserved,
        dark);
  }

  ghost function SymbolPenalty(version: Version, ecc: Ecc, codewords: seq<byte>, mask: nat): nat
    requires mask < 8
  {
    PenaltyOf(Size(version), SymbolDark(version, ecc, codewords, mask))
  }

  /** The first of the eight masks whose symbol has the lowest penalty. */
  ghost predicate IsBestMask(version: Version, ecc: Ecc, codewords: seq<byte>, mask: nat) {
    && mask < 8
    && forall m :: 0 <= m < 8 ==>
         var mine, theirs := SymbolPenalty(version, ecc, codewords, mask), SymbolPenalty(version, ecc, codewords, m);
         mine <= theirs && (m < mask ==> mine < theirs)
  }

  /** Draw the symbol; a mask that is not forced is chosen by lowest penalty, earliest first. */
  method BuildSymbol(version: Version, ecc: Ecc, codewords: seq<byte>, forced: Option<nat>) returns (code: QrCode)
    requires forced.Some? ==> forced.value < 8
    ensures code.version == version && code.size == Size(version) && code.ecc == ecc && code.mask < 8
    ensures code.dark == SymbolDark(version, ecc, codewords, code.mask)
    ensures if forced.Some? then code.mask == forced.value else IsBestMask(version, ecc, codewords, code.mask)
  {
    hide PatternDark, Reserved, DrawnTo, WalkLength, SymbolDark, PenaltyOf;
    var size := Size(version);
    var canvas := new Canvas(size);
    DrawFunctionPatterns(canvas, version);
    ghost var blank := canvas.dark;
    canvas.DrawCodewords(codewords);
    match forced
    case Some(mask) =>
      var dark := Candidate(canvas, version, ecc, codewords, mask, blank);
      code := QrCode(version, size, ecc, mask, dark);
    case None =>
      var mask := 0;
      var dark := Candidate(canvas, version, ecc, codewords, 0, blank);
      var best := Penalty(size, dark);
      ghost var drawn, reserved := canvas.dark, canvas.reserved;
      for m := 1 to 8
        invariant canvas.dark == drawn && canvas.reserved == reserved
        invariant mask < m && dark == SymbolDark(version, ecc, codewords, mask)
        invariant best == SymbolPenalty(version, ecc, codewords, mask)
        invariant forall k :: 0 <= k < m ==> best <= SymbolPenalty(version, ecc, codewords, k)
        invariant forall k :: 0 <= k < mask ==> best < SymbolPenalty(version, ecc, codewords, k)
      {
        var candidate := Candidate(canvas, version, ecc, codewords, m, blank);
        var penalty := Penalty(size, candidate);
        if penalty < best {
          best, mask, dark := penalty, m, candidate;
        }
      }
      code := QrCode(version, size, ecc, mask, dark);
  }

  // ----- The whole encoder -----

  /** Both copies of the format in a finished symbol spell it. */
  lemma SymbolShowsFormat(version: Version, ecc: Ecc, codewords: seq<byte>, mask: nat)
    requires mask < 8
    ensures FirstFormat(SymbolDark(version, ecc, codewords, mask)) == FormatInfo(ecc, mask)
    ensures SecondFormat(Size(version), SymbolDark(version, ecc, codewords, mask)) == FormatInfo(ecc, mask)
  {
    hide FormatInfo, Reserved, PatternDark, MaskCondition, WalkIndex, CodewordBit, FreeCount, FormatZone, FormatDark,
        FirstCopy, SecondCopy;
    var size, bits, dark := Size(version), FormatInfo(ecc, mask), SymbolDark(version, ecc, codewords, mask);
    forall k | 0 <= k < 15
      ensures FirstFormat(dark)[k] == bits[k] && SecondFormat(size, dark)[k] == bits[k]
    {
      FormatModule(size, bits, 14 - k);
    }
  }

  lemma FormatModule(size: nat, bits: seq<bool>, i: nat)
    requires size >= 21 && |bits| == 15 && i < 15
    ensures forall p :: p in {FirstCopy(i), SecondCopy(size, i)} ==>
              InGrid(size, p) && FormatZone(size, p) && (FormatDark(size, bits, p) <==> LowBit(bits, i))
  {}

  /** Reading a finished symbol from its grid alone gives back the message its codewords hold. */
  lemma ScanUndoesSymbol(version: Version, ecc: Ecc, codewords: seq<byte>, mask: nat)
    requires mask < 8 && |codewords| == TotalCodewords(version)
    ensures Scan(Size(version), SymbolDark(version, ecc, codewords, mask)) == ReadMessage(codewords, version, ecc)
    ensures ReadBack(QrCode(version, Size(version), ecc, mask, SymbolDark(version, ecc, codewords, mask)))
         == ReadMessage(codewords, version, ecc)
  {
    hide SymbolDark, ReadBits, WholeBytes, ReservedSet, WalkLength, DecodeFormat, FirstFormat, FormatInfo,
        TotalCodewords, ReadMessage;
    CodewordsReadBack(version, ecc, codewords, mask);
    SymbolShowsFormat(version, ecc, codewords, mask);
    FormatReadsBack(ecc, mask);
    assert (Size(version) - 17) / 4 == version;
  }

  datatype EncodeError = TooLong(length: nat, capacity: nat)

  datatype Result<+T> = Ok(value: T) | Err(error: EncodeError)

  /**
   The grid shows codewords that hold the bytes, padded and protected block by
   block, under the mask that was forced or else the best one.
   */
  ghost predicate Shows(code: QrCode, bytes: seq<byte>, forced: Option<nat>) {
    code.mask < 8 && exists codewords: seq<byte> ::
      && |codewords| == TotalCodewords(code.version)
      && IsEncoding(BlockRow(code.version, code.ecc), codewords, bytes, code.version)
      && code.dark == SymbolDark(code.version, code.ecc, codewords, code.mask)
      && if forced.Some? then code.mask == forced.value else IsBestMask(code.version, code.ecc, codewords, code.mask)
  }

  /**
   Encode bytes at a level in the smallest version that fits.  Decode undoes
   encode: for every byte string that fits, every level and every mask,
   the grid reads back as exactly the input.
   */
  method EncodeWith(t: G.Tables, bytes: seq<byte>, ecc: Ecc, forced: Option<nat>) returns (r: Result<QrCode>)
    requires t.Valid() && (forced.Some? ==> forced.value < 8)
    ensures r.Err? <==> |bytes| > CapacityBytes(MAX_VERSION, ecc)
    ensures r.Err? ==> r.error == TooLong(|bytes|, CapacityBytes(MAX_VERSION, ecc))
    ensures r.Ok? ==> r.value.size == Size(r.value.version) && r.value.ecc == ecc && r.value.mask < 8
    ensures r.Ok? ==> ChooseVersion(|bytes|, ecc) == Some(r.value.version)
    ensures r.Ok? ==> Shows(r.value, bytes, forced)
    ensures r.Ok? ==> ReadBack(r.value) == Some(bytes) && Scan(r.value.size, r.value.dark) == Some(bytes)
  {
    hide CapacityBytes, IsBestMask, SymbolDark, ReadBack, Scan, TotalCodewords, IsEncoding, ReadMessage;
    match ChooseVersion(|bytes|, ecc)
    case None =>
      r := Err(TooLong(|bytes|, CapacityBytes(MAX_VERSION, ecc)));
    case Some(version) =>
      var codewords := EncodeCodewords(t, bytes, version, ecc);
      var code := BuildSymbol(version, ecc, codewords, forced);
      ScanUndoesSymbol(version, ecc, codewords, code.mask);
      r := Ok(code);
  }
}
