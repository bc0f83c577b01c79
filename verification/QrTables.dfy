/** Levels, block structure and capacity of versions 1 to 10 (ISO/IEC 18004 tables 1, 3 and 13 to 22). */
module QrTables {
  import opened Basics

  datatype Ecc = Low | Medium | Quartile | High

  const MAX_VERSION := 10

  type Version = v: nat | 1 <= v <= MAX_VERSION witness 1

  /**
   One row of the block tables: `check` error-correction codewords per block,
   `short` blocks of `length` data codewords, then `long` blocks of one more.
   */
  datatype Row = Row(check: nat, short: nat, length: nat, long: nat) {
    function Blocks(): nat { short + long }

    function DataCodewords(): nat { short * length + long * (length + 1) }

    function TotalCodewords(): (n: nat)
      ensures n >= DataCodewords()
    {
      DataCodewords() + Blocks() * check
    }
  }

  function TotalCodewords(version: Version): nat {
    match version
    case 1 => 26
    case 2 => 44
    case 3 => 70
    case 4 => 100
    case 5 => 134
    case 6 => 172
    case 7 => 196
    case 8 => 242
    case 9 => 292
    case _ => 346
  }

  /** The rows of one version, in the order of the levels. */
  datatype Rows = Rows(low: Row, medium: Row, quartile: Row, high: Row)

  function BlockRows(version: Version): Rows {
    match version
    case 1 => Rows(Row(7, 1, 19, 0), Row(10, 1, 16, 0), Row(13, 1, 13, 0), Row(17, 1, 9, 0))
    case 2 => Rows(Row(10, 1, 34, 0), Row(16, 1, 28, 0), Row(22, 1, 22, 0), Row(28, 1, 16, 0))
    case 3 => Rows(Row(15, 1, 55, 0), Row(26, 1, 44, 0), Row(18, 2, 17, 0), Row(22, 2, 13, 0))
    case 4 => Rows(Row(20, 1, 80, 0), Row(18, 2, 32, 0), Row(26, 2, 24, 0), Row(16, 4, 9, 0))
    case 5 => Rows(Row(26, 1, 108, 0), Row(24, 2, 43, 0), Row(18, 2, 15, 2), Row(22, 2, 11, 2))
    case 6 => Rows(Row(18, 2, 68, 0), Row(16, 4, 27, 0), Row(24, 4, 19, 0), Row(28, 4, 15, 0))
    case 7 => Rows(Row(20, 2, 78, 0), Row(18, 4, 31, 0), Row(18, 2, 14, 4), Row(26, 4, 13, 1))
    case 8 => Rows(Row(24, 2, 97, 0), Row(22, 2, 38, 2), Row(22, 4, 18, 2), Row(26, 4, 14, 2))
    case 9 => Rows(Row(30, 2, 116, 0), Row(22, 3, 36, 2), Row(20, 4, 16, 4), Row(24, 4, 12, 4))
    case _ => Rows(Row(18, 2, 68, 2), Row(26, 4, 43, 1), Row(24, 6, 19, 2), Row(28, 6, 15, 2))
  }

  function BlockRow(version: Version, ecc: Ecc): (row: Row) {
    var rows := BlockRows(version);
    match ecc
    case Low => rows.low
    case Medium => rows.medium
    case Quartile => rows.quartile
    case High => rows.high
  }

  function DataCodewords(version: Version, ecc: Ecc): nat {
    BlockRow(version, ecc).DataCodewords()
  }

  /** Width of the character count in byte mode. */
  function CountBits(version: Version): nat {
    if version <= 9 then 8 else 16
  }

  function CapacityBytes(version: Version, ecc: Ecc): nat {
    TablesAreConsistent(version, ecc);
    (DataCodewords(version, ecc) * 8 - 4 - CountBits(version)) / 8
  }

  /** A row with at least one block, of at least one codeword and one check codeword. */
  predicate Usable(row: Row) {
    row.check > 0 && row.short > 0 && row.length > 0
  }

  /** A usable row that adds up to `total`, with room for a header of `header` bits. */
  predicate Fits(row: Row, total: nat, header: nat) {
    && Usable(row) && row.TotalCodewords() == total
    && row.DataCodewords() * 8 >= header
  }

  /** Data codewords per version and level, as ISO/IEC 18004 table 7 prints them. */
  function PublishedDataCodewords(version: Version, ecc: Ecc): nat {
    match ecc
    case Low => (
      match version
      case 1 => 19 case 2 => 34 case 3 => 55 case 4 => 80 case 5 => 108
      case 6 => 136 case 7 => 156 case 8 => 194 case 9 => 232 case _ => 274)
    case Medium => (
      match version
      case 1 => 16 case 2 => 28 case 3 => 44 case 4 => 64 case 5 => 86
      case 6 => 108 case 7 => 124 case 8 => 154 case 9 => 182 case _ => 216)
    case Quartile => (
      match version
      case 1 => 13 case 2 => 22 case 3 => 34 case 4 => 48 case 5 => 62
      case 6 => 76 case 7 => 88 case 8 => 110 case 9 => 132 case _ => 154)
    case High => (
      match version
      case 1 => 9 case 2 => 16 case 3 => 26 case 4 => 36 case 5 => 46
      case 6 => 60 case 7 => 66 case 8 => 86 case 9 => 100 case _ => 122)
  }

  lemma LowRows(version: Version)
    ensures Fits(BlockRow(version, Low), TotalCodewords(version), 4 + CountBits(version))
    ensures BlockRow(version, Low).DataCodewords() == PublishedDataCodewords(version, Low)
  {
    match version
    case 1 =>
    case 2 =>
    case 3 =>
    case 4 =>
    case 5 =>
    case 6 =>
    case 7 =>
    case 8 =>
    case 9 =>
    case 10 =>
  }

  lemma MediumRows(version: Version)
    ensures Fits(BlockRow(version, Medium), TotalCodewords(version), 4 + CountBits(version))
    ensures BlockRow(version, Medium).DataCodewords() == PublishedDataCodewords(version, Medium)
  {
    match version
    case 1 =>
    case 2 =>
    case 3 =>
    case 4 =>
    case 5 =>
    case 6 =>
    case 7 =>
    case 8 =>
    case 9 =>
    case 10 =>
  }

  lemma QuartileRows(version: Version)
    ensures Fits(BlockRow(version, Quartile), TotalCodewords(version), 4 + CountBits(version))
    ensures BlockRow(version, Quartile).DataCodewords() == PublishedDataCodewords(version, Quartile)
  {
    match version
    case 1 =>
    case 2 =>
    case 3 =>
    case 4 =>
    case 5 =>
    case 6 =>
    case 7 =>
    case 8 =>
    case 9 =>
    case 10 =>
  }

  lemma HighRows(version: Version)
    ensures Fits(BlockRow(version, High), TotalCodewords(version), 4 + CountBits(version))
    ensures BlockRow(version, High).DataCodewords() == PublishedDataCodewords(version, High)
  {
    match version
    case 1 =>
    case 2 =>
    case 3 =>
    case 4 =>
    case 5 =>
    case 6 =>
    case 7 =>
    case 8 =>
    case 9 =>
    case 10 =>
  }

  /** Every row adds up to the version's total, and to the published number of data codewords. */
  lemma TablesAreConsistent(version: Version, ecc: Ecc)
    ensures Fits(BlockRow(version, ecc), TotalCodewords(version), 4 + CountBits(version))
    ensures BlockRow(version, ecc).DataCodewords() == PublishedDataCodewords(version, ecc)
  {
    hide BlockRow, TotalCodewords, PublishedDataCodewords, Fits;
    match ecc
    case Low => LowRows(version);
    case Medium => MediumRows(version);
    case Quartile => QuartileRows(version);
    case High => HighRows(version);
  }

  lemma PublishedGrows(v: Version, ecc: Ecc)
    requires v < MAX_VERSION
    ensures PublishedDataCodewords(v, ecc) + 2 <= PublishedDataCodewords(v + 1, ecc)
  {}

  lemma CapacityStep(v: Version, ecc: Ecc)
    requires v < MAX_VERSION
    ensures CapacityBytes(v, ecc) < CapacityBytes(v + 1, ecc)
  {
    hide BlockRow, PublishedDataCodewords, Row.DataCodewords, TotalCodewords, Row.TotalCodewords;
    TablesAreConsistent(v, ecc);
    TablesAreConsistent(v + 1, ecc);
    PublishedGrows(v, ecc);
  }

  lemma {:induction false} CapacityGrows(v: Version, w: Version, ecc: Ecc)
    requires v <= w
    ensures v < w <==> CapacityBytes(v, ecc) < CapacityBytes(w, ecc)
    ensures CapacityBytes(v, ecc) <= CapacityBytes(w, ecc)
    decreases w - v
  {
    hide CapacityBytes;
    if v < w {
      CapacityGrows(v + 1, w, ecc);
      CapacityStep(v, ecc);
    }
  }

  /** The smallest version that fits, searched upwards; `None` only beyond version 10. */
  function ChooseVersion(length: nat, ecc: Ecc): (r: Option<Version>)
    ensures r.None? <==> length > CapacityBytes(MAX_VERSION, ecc)
    ensures r.Some? ==> length <= CapacityBytes(r.value, ecc)
    ensures r.Some? ==> forall v: Version :: v < r.value ==> length > CapacityBytes(v, ecc)
  {
    FirstFit(1, length, ecc)
  }

  function FirstFit(from: Version, length: nat, ecc: Ecc): (r: Option<Version>)
    ensures r.None? <==> length > CapacityBytes(MAX_VERSION, ecc)
    ensures r.Some? ==> r.value >= from && length <= CapacityBytes(r.value, ecc)
    ensures r.Some? ==> forall v: Version :: from <= v < r.value ==> length > CapacityBytes(v, ecc)
    decreases MAX_VERSION - from
  {
    hide CapacityBytes;
    CapacityGrows(from, MAX_VERSION, ecc);
    if length <= CapacityBytes(from, ecc) then Some(from)
    else if from == MAX_VERSION then None
    else FirstFit(from + 1, length, ecc)
  }
}
