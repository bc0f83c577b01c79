/**
 Block split, error correction and interleaving (ISO/IEC 18004 sections 7.5
 and 7.6): from padded data codewords to the codewords that are drawn, and the
 reader's way back.
 */
module QrBlocks {
  import opened Basics
  import opened BitString
  import opened ByteString
  import opened QrTables
  import opened QrBitStream
  import G = Gf256
  import RS = ReedSolomon

  /** Data codewords in block `b`: the short blocks come first. */
  function Length(r: Row, b: nat): nat {
    if b < r.short then r.length else r.length + 1
  }

  /** Where block `b` starts in the data codewords. */
  function Offset(r: Row, b: nat): nat {
    if b <= r.short then b * r.length else r.short * r.length + (b - r.short) * (r.length + 1)
  }

  lemma OffsetStep(r: Row, b: nat)
    ensures Offset(r, b + 1) == Offset(r, b) + Length(r, b)
    ensures Offset(r, r.Blocks()) == r.DataCodewords()
  {
    if b < r.short {
      assert (b + 1) * r.length == b * r.length + r.length;
    } else {
      var k := b - r.short;
      assert (k + 1) * (r.length + 1) == k * (r.length + 1) + (r.length + 1);
    }
  }

  lemma {:induction false} OffsetGrows(r: Row, b: nat, c: nat)
    requires b <= c
    ensures Offset(r, b) <= Offset(r, c)
    decreases c - b
  {
    hide Offset;
    if b < c {
      OffsetStep(r, b);
      OffsetGrows(r, b + 1, c);
    }
  }

  /** Where codeword `i` of block `b` lands after interleaving. */
  function DataPosition(r: Row, b: nat, i: nat): int {
    if i < r.length then i * r.Blocks() + b else r.length * r.Blocks() + (b - r.short)
  }

  function CheckPosition(r: Row, b: nat, i: nat): nat {
    r.DataCodewords() + i * r.Blocks() + b
  }

  /** Which codeword of which block sits at position `p`: the inverse of `DataPosition`. */
  function DataSource(r: Row, p: nat): (nat, nat)
    requires r.Blocks() > 0
  {
    if p < r.length * r.Blocks() then (p % r.Blocks(), p / r.Blocks())
    else (r.short + p - r.length * r.Blocks(), r.length)
  }

  lemma RowsAreOrdered(i: nat, j: nat, n: nat)
    requires i < j
    ensures i * n + n <= j * n
  {
    ProductGrows(n, i + 1, j);
    assert (i + 1) * n == i * n + n;
  }

  lemma DataCountByRows(r: Row)
    ensures r.DataCodewords() == r.length * r.Blocks() + r.long
  {
    assert r.long * (r.length + 1) == r.long * r.length + r.long;
    assert r.length * (r.short + r.long) == r.short * r.length + r.long * r.length;
  }

  /** Interleaving is a permutation: positions and (block, index) pairs correspond one to one. */
  lemma InterleaveIsPermutation(r: Row, b: nat, i: nat, p: nat)
    requires Usable(r)
    ensures b < r.Blocks() && i < Length(r, b) ==>
              0 <= DataPosition(r, b, i) < r.DataCodewords() && DataSource(r, DataPosition(r, b, i)) == (b, i)
    ensures p < r.DataCodewords() ==>
              var (c, j) := DataSource(r, p);
              c < r.Blocks() && j < Length(r, c) && DataPosition(r, c, j) == p
  {
    if b < r.Blocks() && i < Length(r, b) {
      PositionFindsSource(r, b, i);
    }
    if p < r.DataCodewords() {
      SourceFindsPosition(r, p);
    }
  }

  lemma PositionFindsSource(r: Row, b: nat, i: nat)
    requires Usable(r) && b < r.Blocks() && i < Length(r, b)
    ensures 0 <= DataPosition(r, b, i) < r.DataCodewords() && DataSource(r, DataPosition(r, b, i)) == (b, i)
  {
    var n := r.Blocks();
    DataCountByRows(r);
    if i < r.length {
      RowsAreOrdered(i, r.length, n);
      QuotientIs(i * n + b, n, i, b);
    }
  }

  lemma SourceFindsPosition(r: Row, p: nat)
    requires Usable(r) && p < r.DataCodewords()
    ensures var (c, j) := DataSource(r, p);
            c < r.Blocks() && j < Length(r, c) && DataPosition(r, c, j) == p
  {
    var n := r.Blocks();
    DataCountByRows(r);
    if p < r.length * n {
      var q, c := DivMod(p, n);
      QuotientBelow(p, n, r.length);
    }
  }

  // ----- Interleaving -----

  ghost predicate Shaped(r: Row, blocks: seq<seq<byte>>) {
    |blocks| == r.Blocks() && forall b :: 0 <= b < |blocks| ==> |blocks[b]| == Length(r, b)
  }

  /** One round: codeword `index` of every block that has one. */
  method InterleaveRow(blocks: seq<seq<byte>>, index: nat, out: seq<byte>, ghost first: nat) returns (next: seq<byte>)
    requires first <= |blocks|
    requires forall b :: 0 <= b < |blocks| ==> (index < |blocks[b]| <==> first <= b)
    ensures next == out + seq(|blocks| - first, k requires 0 <= k < |blocks| - first => blocks[first + k][index])
  {
    next := out;
    for b := 0 to |blocks|
      invariant |next| == |out| + (if b < first then 0 else b - first)
      invariant next[..|out|] == out
      invariant forall k :: first <= k < b ==> next[|out| + k - first] == blocks[k][index]
    {
      if index < |blocks[b]| {
        next := next + [blocks[b][index]];
      }
    }
  }

  /** `out` holds codeword `i` of block `b` in round `i`, counting rounds of `|blocks|` from `base`. */
  ghost predicate InRound(blocks: seq<seq<byte>>, out: seq<byte>, base: nat, b: nat, i: nat)
    requires b < |blocks|
  {
    i < |blocks[b]| && base + i * |blocks| + b < |out| && out[base + i * |blocks| + b] == blocks[b][i]
  }

  ghost predicate RoundsDone(blocks: seq<seq<byte>>, out: seq<byte>, base: nat, rounds: nat) {
    forall b, i :: 0 <= b < |blocks| && 0 <= i < rounds ==> InRound(blocks, out, base, b, i)
  }

  lemma AddRound(blocks: seq<seq<byte>>, out: seq<byte>, base: nat, rounds: nat, next: seq<byte>)
    requires RoundsDone(blocks, out, base, rounds) && |out| == base + rounds * |blocks|
    requires forall b :: 0 <= b < |blocks| ==> rounds < |blocks[b]|
    requires next == out + seq(|blocks|, k requires 0 <= k < |blocks| => blocks[k][rounds])
    ensures RoundsDone(blocks, next, base, rounds + 1) && |next| == base + (rounds + 1) * |blocks|
  {
    var n := |blocks|;
    assert (rounds + 1) * n == rounds * n + n;
    forall b, i | 0 <= b < n && 0 <= i < rounds + 1
      ensures InRound(blocks, next, base, b, i)
    {
      if i < rounds {
        assert InRound(blocks, out, base, b, i);
      } else {
        assert next[base + rounds * n + b] == next[|out| + b] == blocks[b][rounds];
      }
    }
  }

  ghost predicate DataAt(r: Row, blocks: seq<seq<byte>>, out: seq<byte>, b: nat, i: nat)
    requires b < |blocks| && i < |blocks[b]|
  {
    0 <= DataPosition(r, b, i) < |out| && out[DataPosition(r, b, i)] == blocks[b][i]
  }

  ghost predicate DataLaidOut(r: Row, blocks: seq<seq<byte>>, out: seq<byte>) {
    forall b, i :: 0 <= b < |blocks| && 0 <= i < |blocks[b]| ==> DataAt(r, blocks, out, b, i)
  }

  lemma RoundsLayOutData(r: Row, blocks: seq<seq<byte>>, rows: seq<byte>, out: seq<byte>)
    requires Usable(r) && Shaped(r, blocks)
    requires RoundsDone(blocks, rows, 0, r.length) && |rows| == r.length * r.Blocks()
    requires out == rows + seq(r.long, k requires 0 <= k < r.long => blocks[r.short + k][r.length])
    ensures DataLaidOut(r, blocks, out)
  {
    forall b, i | 0 <= b < |blocks| && 0 <= i < |blocks[b]|
      ensures DataAt(r, blocks, out, b, i)
    {
      if i < r.length {
        assert InRound(blocks, rows, 0, b, i);
      } else {
        assert out[|rows| + (b - r.short)] == blocks[b][r.length];
      }
    }
  }

  /** Take the first codeword of every block, then the second, skipping blocks that have run out. */
  method InterleaveData(r: Row, blocks: seq<seq<byte>>) returns (out: seq<byte>)
    requires Usable(r) && Shaped(r, blocks)
    ensures |out| == r.DataCodewords() && DataLaidOut(r, blocks, out)
  {
    hide InRound, DataLaidOut;
    out := [];
    for index := 0 to r.length
      invariant RoundsDone(blocks, out, 0, index) && |out| == index * |blocks|
    {
      ghost var before := out;
      out := InterleaveRow(blocks, index, out, 0);
      assert out == before + seq(|blocks|, k requires 0 <= k < |blocks| => blocks[k][index]);
      AddRound(blocks, before, 0, index, out);
    }
    ghost var rows := out;
    if r.long > 0 {
      out := InterleaveRow(blocks, r.length, out, r.short);
    }
    RoundsLayOutData(r, blocks, rows, out);
    DataCountByRows(r);
  }

  /** The check codewords follow, interleaved the same way; all blocks have equally many. */
  method InterleaveChecks(r: Row, checks: seq<seq<byte>>, data: seq<byte>) returns (out: seq<byte>)
    requires |checks| == r.Blocks() && forall b :: 0 <= b < |checks| ==> |checks[b]| == r.check
    ensures |out| == |data| + r.Blocks() * r.check && out[..|data|] == data
    ensures RoundsDone(checks, out, |data|, r.check)
  {
    hide InRound;
    out := data;
    for index := 0 to r.check
      invariant RoundsDone(checks, out, |data|, index) && |out| == |data| + index * |checks|
      invariant out[..|data|] == data
    {
      ghost var before := out;
      out := InterleaveRow(checks, index, out, 0);
      assert out == before + seq(|checks|, k requires 0 <= k < |checks| => checks[k][index]);
      AddRound(checks, before, |data|, index, out);
    }
  }

  // ----- The reader -----

  /** Block `b` of the data codewords, gathered back from the interleaved codewords. */
  function ReadBlock(r: Row, codewords: seq<byte>, b: nat): seq<byte>
    requires Usable(r) && |codewords| >= r.DataCodewords() && b < r.Blocks()
  {
    seq(Length(r, b), i requires 0 <= i < Length(r, b) =>
      InterleaveIsPermutation(r, b, i, 0); codewords[DataPosition(r, b, i)])
  }

  /** The first `n` blocks, concatenated. */
  function ReadData(r: Row, codewords: seq<byte>, n: nat): seq<byte>
    requires Usable(r) && |codewords| >= r.DataCodewords() && n <= r.Blocks()
  {
    if n == 0 then [] else ReadData(r, codewords, n - 1) + ReadBlock(r, codewords, n - 1)
  }

  function ReadChecks(r: Row, codewords: seq<byte>, b: nat): seq<byte>
    requires |codewords| >= r.TotalCodewords() && b < r.Blocks()
  {
    seq(r.check, i requires 0 <= i < r.check =>
      CheckPositionBound(r, b, i); codewords[CheckPosition(r, b, i)])
  }

  lemma CheckPositionBound(r: Row, b: nat, i: nat)
    requires b < r.Blocks() && i < r.check
    ensures CheckPosition(r, b, i) < r.TotalCodewords()
  {
    RowsAreOrdered(i, r.check, r.Blocks());
  }

  /** Undo the interleave, drop the error correction and parse the bit stream. */
  function ReadMessage(codewords: seq<byte>, version: Version, ecc: Ecc): Option<seq<byte>>
    requires |codewords| >= TotalCodewords(version)
  {
    TablesAreConsistent(version, ecc);
    var r := BlockRow(version, ecc);
    ParseMessage(ReadData(r, codewords, r.Blocks()), version)
  }

  ghost predicate HoldsBlocks(r: Row, codewords: seq<byte>, data: seq<byte>)
    requires Usable(r) && |codewords| >= r.DataCodewords() == |data|
  {
    forall b :: 0 <= b < r.Blocks() ==> IsBlock(r, data, b, ReadBlock(r, codewords, b))
  }

  ghost predicate IsBlock(r: Row, data: seq<byte>, b: nat, block: seq<byte>) {
    Offset(r, b) <= Offset(r, b + 1) <= |data| && block == data[Offset(r, b)..Offset(r, b + 1)]
  }

  lemma {:induction false} ReadDataConcatenates(r: Row, codewords: seq<byte>, data: seq<byte>, n: nat)
    requires Usable(r) && |codewords| >= r.DataCodewords() == |data| && n <= r.Blocks()
    requires HoldsBlocks(r, codewords, data)
    ensures Offset(r, n) <= |data| && ReadData(r, codewords, n) == data[..Offset(r, n)]
  {
    hide Offset, ReadBlock;
    if n == 0 {
      OffsetOfFirst(r);
    } else {
      ReadDataConcatenates(r, codewords, data, n - 1);
      assert IsBlock(r, data, n - 1, ReadBlock(r, codewords, n - 1));
    }
  }

  lemma OffsetOfFirst(r: Row)
    ensures Offset(r, 0) == 0
  {}

  // ----- The encoder -----

  function Octets(s: seq<byte>): (t: seq<G.Octet>)
    ensures |t| == |s|
  {
    seq(|s|, i requires 0 <= i < |s| => G.FromByte(s[i]))
  }

  method Bytes(a: array<G.Octet>) returns (s: seq<byte>)
    ensures Octets(s) == a[..]
  {
    hide G.FromByte, G.ToByte;
    s := [];
    for i := 0 to a.Length
      invariant |s| == i
      invariant forall k :: 0 <= k < i ==> G.FromByte(s[k]) == a[k]
    {
      G.FromByteToByte(a[i]);
      s := s + [G.ToByte(a[i])];
    }
  }

  /** A block and its check codewords form a Reed-Solomon codeword. */
  ghost predicate IsProtected(r: Row, block: seq<byte>, checks: seq<byte>) {
    |checks| == r.check && RS.IsCodeword(Octets(block) + Octets(checks), r.check)
  }

  method CheckBlock(t: G.Tables, r: Row, block: seq<byte>, divisor: seq<G.Octet>) returns (checks: seq<byte>)
    requires t.Valid() && Usable(r) && divisor == RS.GeneratorPoly(r.check)[1..]
    ensures IsProtected(r, block, checks)
  {
    var rest := RS.Remainder(t, Octets(block), divisor);
    checks := Bytes(rest);
    RS.CodewordsVanish(Octets(block), r.check);
  }

  /** Split the data codewords into blocks and compute each block's check codewords. */
  method SplitBlocks(t: G.Tables, r: Row, data: seq<byte>) returns (blocks: seq<seq<byte>>, checks: seq<seq<byte>>)
    requires t.Valid() && Usable(r) && |data| == r.DataCodewords()
    ensures Shaped(r, blocks) && |checks| == r.Blocks()
    ensures forall b :: 0 <= b < r.Blocks() ==> IsBlock(r, data, b, blocks[b])
    ensures forall b :: 0 <= b < r.Blocks() ==> IsProtected(r, blocks[b], checks[b])
  {
    hide IsProtected, Offset, IsBlock, Row.DataCodewords, RS.GeneratorPoly;
    OffsetOfFirst(r);
    var polynomial := RS.Generator(t, r.check);
    var divisor := polynomial[..];
    blocks, checks := [], [];
    var offset := 0;
    for b := 0 to r.Blocks()
      invariant offset == Offset(r, b) && |blocks| == |checks| == b
      invariant forall k :: 0 <= k < b ==> |blocks[k]| == Length(r, k)
      invariant forall k :: 0 <= k < b ==> IsBlock(r, data, k, blocks[k])
      invariant forall k :: 0 <= k < b ==> IsProtected(r, blocks[k], checks[k])
    {
      var length := if b < r.short then r.length else r.length + 1;
      BlockInRange(r, data, b);
      var slice := data[offset..offset + length];
      offset := offset + length;
      var check := CheckBlock(t, r, slice, divisor);
      checks := checks + [check];
      blocks := blocks + [slice];
    }
  }

  lemma BlockInRange(r: Row, data: seq<byte>, b: nat)
    requires b < r.Blocks() && |data| == r.DataCodewords()
    ensures Offset(r, b + 1) == Offset(r, b) + Length(r, b) <= |data|
    ensures IsBlock(r, data, b, data[Offset(r, b)..Offset(r, b) + Length(r, b)])
  {
    hide Offset;
    OffsetStep(r, b);
    OffsetGrows(r, b + 1, r.Blocks());
  }

  lemma CountFits(length: nat, version: Version, ecc: Ecc)
    requires length <= CapacityBytes(version, ecc)
    ensures length < Pow2(CountBits(version))
    ensures 4 + CountBits(version) + 8 * length <= 8 * DataCodewords(version, ecc)
  {
    hide BlockRow, Row.DataCodewords, TotalCodewords, Row.TotalCodewords;
    TablesAreConsistent(version, ecc);
    assert Pow2(8) == 256 && Pow2(16) == 65536;
    assert PublishedDataCodewords(version, ecc) <= 274
           && (version <= 9 ==> PublishedDataCodewords(version, ecc) <= 232);
  }

  /**
   `out` is the drawn form of `bytes`: gathered back from the interleave, the
   data codewords are the padded message, and every block is protected.
   */
  ghost predicate IsEncoding(r: Row, out: seq<byte>, bytes: seq<byte>, version: Version) {
    && Usable(r) && |out| == r.TotalCodewords()
    && IsPadded(ReadData(r, out, r.Blocks()), bytes, version, r.DataCodewords())
    && forall b :: 0 <= b < r.Blocks() ==> IsProtected(r, ReadBlock(r, out, b), ReadChecks(r, out, b))
  }

  /** Bit stream, padding, error correction and interleaving, for every message that fits. */
  method EncodeCodewords(t: G.Tables, bytes: seq<byte>, version: Version, ecc: Ecc) returns (out: seq<byte>)
    requires t.Valid()
    requires |bytes| <= CapacityBytes(version, ecc)
    ensures |out| == TotalCodewords(version)
    ensures IsEncoding(BlockRow(version, ecc), out, bytes, version)
    ensures ReadMessage(out, version, ecc) == Some(bytes)
  {
    hide BlockRow, CapacityBytes, TotalCodewords;
    TablesAreConsistent(version, ecc);
    CountFits(|bytes|, version, ecc);
    out := EncodeRow(t, bytes, version, BlockRow(version, ecc));
  }

  method EncodeRow(t: G.Tables, bytes: seq<byte>, version: Version, r: Row) returns (out: seq<byte>)
    requires t.Valid() && Usable(r)
    requires 4 + CountBits(version) + 8 * |bytes| <= 8 * r.DataCodewords()
    requires |bytes| < Pow2(CountBits(version))
    ensures IsEncoding(r, out, bytes, version)
    ensures ParseMessage(ReadData(r, out, r.Blocks()), version) == Some(bytes)
  {
    hide IsProtected, IsBlock, IsPadded, IsEncoding, DataLaidOut, RoundsDone, Row.DataCodewords, ParseMessage, Pow2,
        ReadData;
    var data := PadMessage(bytes, version, r.DataCodewords());
    PaddedLength(data, bytes, version, r.DataCodewords());
    var blocks, checks := SplitBlocks(t, r, data);
    out := InterleaveData(r, blocks);
    ProtectedLengths(r, blocks, checks);
    ghost var rows := out;
    out := InterleaveChecks(r, checks, out);
    EncodingIsRight(r, version, bytes, data, blocks, checks, rows, out);
    ParseUndoesPadding(data, bytes, version, r.DataCodewords());
  }

  lemma EncodingIsRight(r: Row, version: Version, bytes: seq<byte>, data: seq<byte>,
                        blocks: seq<seq<byte>>, checks: seq<seq<byte>>, rows: seq<byte>, out: seq<byte>)
    requires Usable(r) && |data| == r.DataCodewords() && IsPadded(data, bytes, version, r.DataCodewords())
    requires Shaped(r, blocks) && |checks| == r.Blocks() && forall b :: 0 <= b < |checks| ==> |checks[b]| == r.check
    requires forall b :: 0 <= b < r.Blocks() ==> IsBlock(r, data, b, blocks[b])
    requires forall b :: 0 <= b < r.Blocks() ==> IsProtected(r, blocks[b], checks[b])
    requires |rows| == r.DataCodewords() && |out| == r.TotalCodewords() && out[..|rows|] == rows
    requires DataLaidOut(r, blocks, rows) && RoundsDone(checks, out, |rows|, r.check)
    ensures IsEncoding(r, out, bytes, version) && ReadData(r, out, r.Blocks()) == data
  {
    hide IsProtected, IsBlock, IsPadded, DataLaidOut, RoundsDone, Row.DataCodewords, ReadBlock, ReadChecks;
    ReadsBack(r, out, blocks, checks, rows);
    ReadDataConcatenates(r, out, data, r.Blocks());
    OffsetStep(r, 0);
    assert data[..|data|] == data;
  }

  lemma PaddedLength(data: seq<byte>, bytes: seq<byte>, version: Version, capacity: nat)
    requires IsPadded(data, bytes, version, capacity)
    ensures |data| == capacity
  {}

  lemma ProtectedLengths(r: Row, blocks: seq<seq<byte>>, checks: seq<seq<byte>>)
    requires |blocks| == |checks|
    requires forall b :: 0 <= b < |blocks| ==> IsProtected(r, blocks[b], checks[b])
    ensures forall b :: 0 <= b < |checks| ==> |checks[b]| == r.check
  {}

  lemma ReadsBack(r: Row, out: seq<byte>, blocks: seq<seq<byte>>, checks: seq<seq<byte>>, rows: seq<byte>)
    requires Usable(r) && Shaped(r, blocks) && |checks| == r.Blocks()
    requires forall b :: 0 <= b < r.Blocks() ==> |checks[b]| == r.check
    requires |rows| == r.DataCodewords() && |out| == r.TotalCodewords() && out[..|rows|] == rows
    requires DataLaidOut(r, blocks, rows) && RoundsDone(checks, out, |rows|, r.check)
    ensures forall b :: 0 <= b < r.Blocks() ==> ReadBlock(r, out, b) == blocks[b] && ReadChecks(r, out, b) == checks[b]
  {
    forall b | 0 <= b < r.Blocks()
      ensures ReadBlock(r, out, b) == blocks[b] && ReadChecks(r, out, b) == checks[b]
    {
      forall i | 0 <= i < Length(r, b)
        ensures ReadBlock(r, out, b)[i] == blocks[b][i]
      {
        assert DataAt(r, blocks, rows, b, i);
        assert out[DataPosition(r, b, i)] == rows[DataPosition(r, b, i)];
      }
      forall i | 0 <= i < r.check
        ensures ReadChecks(r, out, b)[i] == checks[b][i]
      {
        assert InRound(checks, out, |rows|, b, i);
      }
    }
  }
}
