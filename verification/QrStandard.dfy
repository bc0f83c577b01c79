/**
 ISO/IEC 18004 as its figures and tables print it, and the encoder measured
 against that: the eight masks, the way the codewords are laid, the finder and
 alignment patterns, where the format bits go, the header and padding of the
 stream, the blocks and capacities.
 */
module QrStandard {
  import opened Basics
  import opened BitString
  import opened ByteString
  import opened QrTables
  import opened QrBitStream
  import opened QrWalk
  import opened QrCanvas
  import opened QrPatterns
  import opened QrPenalty
  import opened QrRoom
  import opened QrCyclic
  import opened QrBlocks
  import opened QrSymbol
  import G = Gf256

  // ----- Masks -----

  /** One period of each mask; a `#` is flipped. */
  function Tile(mask: nat): (t: seq<string>)
    requires mask < 8
    ensures |t| > 0 && |t[0]| > 0 && forall y :: 0 <= y < |t| ==> |t[y]| == |t[0]|
  {
    match mask
    case 0 => ["#.", ".#"]
    case 1 => ["#", "."]
    case 2 => ["#.."]
    case 3 => ["#..", "..#", ".#."]
    case 4 => ["###...", "###...", "...###", "...###"]
    case 5 => ["######", "#.....", "#..#..", "#.#.#.", "#..#..", "#....."]
    case 6 => ["######", "###...", "##.##.", "#.#.#.", "#.##.#", "#...##"]
    case _ => ["#.#.#.", "...###", "#...##", ".#.#.#", "###...", ".###.."]
  }

  predicate Flipped(mask: nat, x: nat, y: nat)
    requires mask < 8
  {
    var t := Tile(mask);
    t[y % |t|][x % |t[0]|] == '#'
  }

  lemma SumInTile(k: nat, n: nat)
    ensures (6 * k + n) % 2 == n % 2 && (6 * k + n) % 3 == n % 3
  {
    QuotientIs(6 * k + n, 2, 3 * k + n / 2, n % 2);
    QuotientIs(6 * k + n, 3, 2 * k + n / 3, n % 3);
  }

  lemma ProductOfSums(a: nat, i: nat, b: nat, j: nat)
    ensures (6 * a + i) * (6 * b + j) == 6 * (6 * a * b + a * j + b * i) + i * j
  {
    assert (6 * a + i) * (6 * b + j) == 6 * a * (6 * b) + 6 * a * j + i * (6 * b) + i * j;
  }

  /** Sums and products modulo 2 and 3 depend on the coordinates modulo 6. */
  lemma CoordinatesInTile(x: nat, y: nat)
    ensures var i, j := x % 6, y % 6;
            (x * y) % 2 == (i * j) % 2 && (x * y) % 3 == (i * j) % 3 && (x + y) % 2 == (i + j) % 2
  {
    var a, i := DivMod(x, 6);
    var b, j := DivMod(y, 6);
    ProductOfSums(a, i, b, j);
    SumInTile(6 * a * b + a * j + b * i, i * j);
    assert x + y == 6 * (a + b) + (i + j);
    SumInTile(a + b, i + j);
  }

  lemma MaskFiveInTile(i: nat, j: nat)
    requires i < 6 && j < 6
    ensures (i * j) % 2 + (i * j) % 3 == 0 <==> Tile(5)[j][i] == '#'
  {
    match j
    case 0 =>
    case 1 =>
    case 2 =>
    case 3 =>
    case 4 =>
    case 5 =>
  }

  lemma MaskSixInTile(i: nat, j: nat)
    requires i < 6 && j < 6
    ensures ((i * j) % 2 + (i * j) % 3) % 2 == 0 <==> Tile(6)[j][i] == '#'
  {
    match j
    case 0 =>
    case 1 =>
    case 2 =>
    case 3 =>
    case 4 =>
    case 5 =>
  }

  lemma MaskSevenInTile(i: nat, j: nat)
    requires i < 6 && j < 6
    ensures ((i + j) % 2 + (i * j) % 3) % 2 == 0 <==> Tile(7)[j][i] == '#'
  {
    match j
    case 0 =>
    case 1 =>
    case 2 =>
    case 3 =>
    case 4 =>
    case 5 =>
  }

  lemma MaskFourInTile(x: nat, y: nat)
    ensures (y / 2 + x / 3) % 2 == 0 <==> Tile(4)[y % 4][x % 6] == '#'
  {
    var a, i := DivMod(x, 6);
    var b, j := DivMod(y, 4);
    assert x / 3 == 2 * a + i / 3 && y / 2 == 2 * b + j / 2;
    assert (y / 2 + x / 3) % 2 == (j / 2 + i / 3) % 2;
    match j
    case 0 =>
    case 1 =>
    case 2 =>
    case 3 =>
  }

  lemma MaskZeroInTile(x: nat, y: nat)
    ensures (x + y) % 2 == 0 <==> Tile(0)[y % 2][x % 2] == '#'
  {}

  lemma RemainderOfSum(x: nat, y: nat)
    ensures (x + y) % 3 == (x % 3 + y % 3) % 3
  {}

  lemma MaskThreeInTile(x: nat, y: nat)
    ensures (x + y) % 3 == 0 <==> Tile(3)[y % 3][x % 3] == '#'
  {
    RemainderOfSum(x, y);
    var i, j := x % 3, y % 3;
    match j
    case 0 =>
    case 1 =>
    case 2 =>
  }

  /** The masks are those of the standard. */
  lemma MasksArePublished(mask: nat, x: nat, y: nat)
    requires mask < 8
    ensures MaskCondition(mask, x, y) <==> Flipped(mask, x, y)
  {
    match mask
    case 0 => MaskZeroInTile(x, y);
    case 1 =>
    case 2 =>
    case 3 => MaskThreeInTile(x, y);
    case 4 => MaskFourInTile(x, y);
    case 5 => CoordinatesInTile(x, y); MaskFiveInTile(x % 6, y % 6);
    case 6 => CoordinatesInTile(x, y); MaskSixInTile(x % 6, y % 6);
    case 7 => CoordinatesInTile(x, y); MaskSevenInTile(x % 6, y % 6);
  }

  // ----- The way of the codewords -----

  /** One step of the walk, by the pair of columns, the row within it and the side. */
  lemma StepGoes(size: nat, k: nat, step: nat)
    requires GoodSize(size) && k < (size - 1) / 2 && step < size
    ensures var p := Visited(size, k, step, 0); Visited(size, k, step, 1) == Pos(p.x - 1, p.y)
    ensures var p := Visited(size, k, step, 1);
            Visited(size, k, step + 1, 0) == Pos(p.x + 1, if k % 2 == 0 then p.y - 1 else p.y + 1)
  {}

  lemma TurnGoes(size: nat, k: nat)
    requires GoodSize(size) && k + 1 < (size - 1) / 2
    ensures var p := Visited(size, k, size - 1, 1);
            Visited(size, k + 1, 0, 0) == Pos(if p.x == 7 then 5 else p.x - 1, p.y)
  {}

  lemma TurnIndex(size: nat, k: nat)
    ensures VisitIndex(size, k, size, 0) == VisitIndex(size, k + 1, 0, 0)
  {}

  /**
   The walk starts in the bottom right corner. From the right module of a pair
   it goes left; from the left one diagonally back to the right, up in the
   first pair of columns, down in the second, and so on; at the end of a pair
   it goes on to the left in the same row, and past column 6.
   */
  lemma WalkGoes(size: nat, n: nat)
    requires GoodSize(size) && n + 1 < WalkLength(size)
    ensures WalkAt(size, 0) == Pos(size - 1, size - 1)
    ensures var p, q, k, r := WalkAt(size, n), WalkAt(size, n + 1), n / (2 * size), n % (2 * size);
            && (r % 2 == 0 ==> q == Pos(p.x - 1, p.y))
            && (r % 2 == 1 && r < 2 * size - 1 ==> q == Pos(p.x + 1, if k % 2 == 0 then p.y - 1 else p.y + 1))
            && (r == 2 * size - 1 ==> q == Pos(if p.x == 7 then 5 else p.x - 1, p.y))
  {
    hide WalkAt, WalkLength, Visited;
    WalkAtVisit(size, 0, 0, 0);
    assert WalkAt(size, 0) == Pos(size - 1, size - 1) by { FirstModule(size); }
    var k, step, side := VisitParts(size, n);
    QuotientIs(n, 2 * size, k, 2 * step + side);
    WalkAtVisit(size, k, step, side);
    if side == 0 {
      WalkAtVisit(size, k, step, 1);
      StepGoes(size, k, step);
    } else if step < size - 1 {
      WalkAtVisit(size, k, step + 1, 0);
      StepGoes(size, k, step);
    } else {
      TurnIndex(size, k);
      var k', step', side' := VisitParts(size, n + 1);
      QuotientIs(n + 1, 2 * size, k', 2 * step' + side');
      QuotientIs(n + 1, 2 * size, k + 1, 0);
      WalkAtVisit(size, k + 1, 0, 0);
      TurnGoes(size, k);
    }
  }

  lemma FirstModule(size: nat)
    requires GoodSize(size)
    ensures Visited(size, 0, 0, 0) == Pos(size - 1, size - 1)
  {}

  // ----- Finders, separators and timing -----

  /** A finder pattern within its separator. */
  const FINDER := [
    ".........",
    ".#######.",
    ".#.....#.",
    ".#.###.#.",
    ".#.###.#.",
    ".#.###.#.",
    ".#.....#.",
    ".#######.",
    "........."]

  const ALIGNMENT := [
    "#####",
    "#...#",
    "#.#.#",
    "#...#",
    "#####"]

  lemma FinderRow(x: nat, y: nat)
    requires x < 9 && y < 9
    ensures FINDER[y][x] == '#' <==> Ring(Pos(x, y), Pos(4, 4)) !in {2, 4}
  {
    match y
    case 0 =>
    case 1 =>
    case 2 =>
    case 3 =>
    case 4 =>
    case 5 =>
    case 6 =>
    case 7 =>
    case 8 =>
  }

  lemma AlignmentRow(x: nat, y: nat)
    requires x < 5 && y < 5
    ensures ALIGNMENT[y][x] == '#' <==> Ring(Pos(x, y), Pos(2, 2)) in {0, 2}
  {
    match y
    case 0 =>
    case 1 =>
    case 2 =>
    case 3 =>
    case 4 =>
  }

  lemma RingMoves(p: Pos, c: Pos, dx: int, dy: int)
    ensures Ring(Pos(p.x + dx, p.y + dy), Pos(c.x + dx, c.y + dy)) == Ring(p, c)
  {}

  /** A reserved module outside the format strips shows its pattern, whatever is encoded. */
  lemma PatternShows(version: Version, ecc: Ecc, codewords: seq<byte>, mask: nat, p: Pos)
    requires mask < 8 && Reserved(version, p) && !FormatZone(Size(version), p)
    ensures p in SymbolDark(version, ecc, codewords, mask) <==> PatternDark(version, p)
  {
    hide FormatDark, FormatInfo, FormatZone, Alignment, VersionZone, Finder, PatternDark, FreeCount, WalkIndex,
        MaskCondition, CodewordBit;
  }

  /** A module in the way of a finder is in the way of nothing drawn after it. */
  lemma FinderIsOnTop(version: Version, c: Pos, p: Pos)
    requires c in FinderCentres(Size(version)) && InGrid(Size(version), p) && Ring(p, c) <= 4
    ensures Reserved(version, p) && Finder(Size(version), p)
    ensures !FormatZone(Size(version), p) && !VersionZone(version, p) && !Alignment(version, p)
    ensures FinderDark(Size(version), p) <==> Ring(p, c) !in {2, 4}
  {
    SquaresAreAlignments(version, p);
    hide Alignment;
  }

  /** The three finder patterns and their separators look as the standard draws them, up to the edge of the symbol. */
  lemma FindersArePublished(version: Version, ecc: Ecc, codewords: seq<byte>, mask: nat, c: Pos, x: nat, y: nat)
    requires mask < 8 && x < 9 && y < 9
    requires c in {Pos(3, 3), Pos(Size(version) - 4, 3), Pos(3, Size(version) - 4)}
    requires InGrid(Size(version), Pos(c.x - 4 + x, c.y - 4 + y))
    ensures Pos(c.x - 4 + x, c.y - 4 + y) in SymbolDark(version, ecc, codewords, mask) <==> FINDER[y][x] == '#'
  {
    var p := Pos(c.x - 4 + x, c.y - 4 + y);
    RingMoves(Pos(x, y), Pos(4, 4), c.x - 4, c.y - 4);
    FinderRow(x, y);
    FinderReach(x, y);
    FinderIsOnTop(version, c, p);
    PatternShows(version, ecc, codewords, mask, p);
    hide SymbolDark, Reserved, FinderDark, FINDER, Ring, FormatZone, VersionZone, Alignment, Finder;
  }

  lemma FinderReach(x: nat, y: nat)
    requires x < 9 && y < 9
    ensures Ring(Pos(x, y), Pos(4, 4)) <= 4
  {}

  /** The centres of the alignment patterns: every pairing of the coordinates of annex E but the three finders. */
  function PublishedCentres(version: Version): set<Pos> {
    var m, c := (Size(version) - 1) / 2, Size(version) - 7;
    if version == 1 then {}
    else if version < 7 then {Pos(c, c)}
    else {Pos(m, 6), Pos(6, m), Pos(m, m), Pos(c, m), Pos(m, c), Pos(c, c)}
  }

  lemma CentresArePublished(version: Version, c: Pos)
    ensures IsAlignmentCentre(version, c) <==> c in PublishedCentres(version)
  {
    var s, last := Coordinates(version), |Coordinates(version)| - 1;
    CoordinatesByRule(version);
    hide Coordinates, Size;
    if version >= 2 {
      assert !Corner(last, last, last) && IsAlignmentCentre(version, Pos(s[last], s[last]));
    }
    if version >= 7 {
      assert !Corner(0, 1, 2) && IsAlignmentCentre(version, Pos(s[0], s[1]));
      assert !Corner(1, 0, 2) && IsAlignmentCentre(version, Pos(s[1], s[0]));
      assert !Corner(1, 1, 2) && IsAlignmentCentre(version, Pos(s[1], s[1]));
      assert !Corner(1, 2, 2) && IsAlignmentCentre(version, Pos(s[1], s[2]));
      assert !Corner(2, 1, 2) && IsAlignmentCentre(version, Pos(s[2], s[1]));
    }
  }

  lemma AlignmentIsOnTop(version: Version, c: Pos, p: Pos)
    requires c in PublishedCentres(version) && Ring(p, c) <= 2
    ensures InGrid(Size(version), p) && !FormatZone(Size(version), p) && !VersionZone(version, p)
  {}

  lemma AlignmentColour(version: Version, c: Pos, p: Pos)
    requires IsAlignmentCentre(version, c) && Ring(p, c) <= 2
    requires InGrid(Size(version), p) && !FormatZone(Size(version), p) && !VersionZone(version, p)
    ensures Reserved(version, p) && (PatternDark(version, p) <==> Ring(p, c) in {0, 2})
  {
    hide IsAlignmentCentre, Ring, FormatZone, VersionZone, Finder, VersionInfo, VersionBit;
    assert Alignment(version, p);
    forall e | IsAlignmentCentre(version, e) && Ring(p, e) in {0, 2}
      ensures e == c
    {
      CentresAreApart(version, e, c, p);
    }
  }

  /** The alignment patterns stand where annex E puts them and look as the standard draws them. */
  lemma AlignmentsArePublished(version: Version, ecc: Ecc, codewords: seq<byte>, mask: nat, c: Pos, x: nat, y: nat)
    requires mask < 8 && x < 5 && y < 5 && c in PublishedCentres(version)
    ensures Pos(c.x - 2 + x, c.y - 2 + y) in SymbolDark(version, ecc, codewords, mask) <==> ALIGNMENT[y][x] == '#'
  {
    var p := Pos(c.x - 2 + x, c.y - 2 + y);
    RingMoves(Pos(x, y), Pos(2, 2), c.x - 2, c.y - 2);
    AlignmentRow(x, y);
    AlignmentReach(x, y);
    CentresArePublished(version, c);
    AlignmentIsOnTop(version, c, p);
    AlignmentColour(version, c, p);
    PatternShows(version, ecc, codewords, mask, p);
    hide SymbolDark, Reserved, PatternDark, ALIGNMENT, Ring, FormatZone, VersionZone, IsAlignmentCentre;
  }

  lemma AlignmentReach(x: nat, y: nat)
    requires x < 5 && y < 5
    ensures Ring(Pos(x, y), Pos(2, 2)) <= 2
  {}

  lemma TimingColour(version: Version, i: nat, p: Pos)
    requires 8 <= i < Size(version) - 8 && (p == Pos(i, 6) || p == Pos(6, i))
    ensures Reserved(version, p) && !FormatZone(Size(version), p)
    ensures PatternDark(version, p) <==> i % 2 == 0
  {
    if Alignment(version, p) {
      var c :| IsAlignmentCentre(version, c) && Ring(p, c) <= 2;
      CentresArePublished(version, c);
      TimingInAlignment(version, i, p, c);
      AlignmentColour(version, c, p);
    } else {
      TimingAlone(version, i, p);
      hide FinderDark, TimingDark, VersionInfo, VersionBit, Alignment;
    }
  }

  lemma TimingInAlignment(version: Version, i: nat, p: Pos, c: Pos)
    requires 8 <= i < Size(version) - 8 && (p == Pos(i, 6) || p == Pos(6, i))
    requires c in PublishedCentres(version) && Ring(p, c) <= 2
    ensures InGrid(Size(version), p) && !FormatZone(Size(version), p) && !VersionZone(version, p)
    ensures Ring(p, c) in {0, 2} <==> i % 2 == 0
  {}

  lemma TimingAlone(version: Version, i: nat, p: Pos)
    requires 8 <= i < Size(version) - 8 && (p == Pos(i, 6) || p == Pos(6, i))
    ensures InGrid(Size(version), p) && Timing(p) && !Finder(Size(version), p)
    ensures !FormatZone(Size(version), p) && !VersionZone(version, p)
    ensures TimingDark(p) <==> i % 2 == 0
  {}

  /** Between the finders, row 6 and column 6 alternate and are dark at even places, alignment patterns included. */
  lemma TimingIsPublished(version: Version, ecc: Ecc, codewords: seq<byte>, mask: nat, i: nat)
    requires mask < 8 && 8 <= i < Size(version) - 8
    ensures Pos(i, 6) in SymbolDark(version, ecc, codewords, mask) <==> i % 2 == 0
    ensures Pos(6, i) in SymbolDark(version, ecc, codewords, mask) <==> i % 2 == 0
  {
    hide SymbolDark, PatternDark, Reserved, FormatZone;
    TimingColour(version, i, Pos(i, 6));
    TimingColour(version, i, Pos(6, i));
    PatternShows(version, ecc, codewords, mask, Pos(i, 6));
    PatternShows(version, ecc, codewords, mask, Pos(6, i));
  }

  // ----- Format and version information -----

  /** Where the format bits go, least significant first. */
  const FORMAT_PLACES := [
    Pos(8, 0), Pos(8, 1), Pos(8, 2), Pos(8, 3), Pos(8, 4), Pos(8, 5), Pos(8, 7), Pos(8, 8),
    Pos(7, 8), Pos(5, 8), Pos(4, 8), Pos(3, 8), Pos(2, 8), Pos(1, 8), Pos(0, 8)]

  /** Where they go once more in a symbol whose last row and column are `z`. */
  function FormatPlacesAgain(z: nat): (s: seq<Pos>)
    ensures |s| == 15
  {
    [Pos(z, 8), Pos(z - 1, 8), Pos(z - 2, 8), Pos(z - 3, 8), Pos(z - 4, 8), Pos(z - 5, 8), Pos(z - 6, 8), Pos(z - 7, 8),
     Pos(8, z - 6), Pos(8, z - 5), Pos(8, z - 4), Pos(8, z - 3), Pos(8, z - 2), Pos(8, z - 1), Pos(8, z)]
  }

  lemma CopiesArePublished(size: nat, i: nat)
    requires size >= 21 && i < 15
    ensures FirstCopy(i) == FORMAT_PLACES[i] && SecondCopy(size, i) == FormatPlacesAgain(size - 1)[i]
  {}

  /** The format information stands at its two places, and beside the second one module is always dark. */
  lemma FormatIsPublished(version: Version, ecc: Ecc, codewords: seq<byte>, mask: nat, i: nat)
    requires mask < 8 && i < 15
    ensures var dark := SymbolDark(version, ecc, codewords, mask);
            && Pos(8, Size(version) - 8) in dark
            && (FORMAT_PLACES[i] in dark <==> FormatInfo(ecc, mask)[14 - i])
            && (FormatPlacesAgain(Size(version) - 1)[i] in dark <==> FormatInfo(ecc, mask)[14 - i])
  {
    hide FormatInfo, SymbolModule, FORMAT_PLACES, FormatPlacesAgain, FirstCopy, SecondCopy;
    var dark := SymbolDark(version, ecc, codewords, mask);
    CopiesArePublished(Size(version), i);
    SymbolShowsFormat(version, ecc, codewords, mask);
    assert FirstFormat(dark)[14 - i] == FormatInfo(ecc, mask)[14 - i];
    assert SecondFormat(Size(version), dark)[14 - i] == FormatInfo(ecc, mask)[14 - i];
    AlwaysDark(version, ecc, codewords, mask);
  }

  lemma AlwaysDark(version: Version, ecc: Ecc, codewords: seq<byte>, mask: nat)
    requires mask < 8
    ensures SymbolModule(version, ecc, codewords, mask, Pos(8, Size(version) - 8))
  {
    hide FormatInfo, Reserved, PatternDark, WalkIndex, CodewordBit, MaskCondition, FreeCount;
  }

  /** The bits of the fixed mask over the format information. */
  const FORMAT_MASK := [true, false, true, false, true, false, false, false, false, false, true, false, false, true,
    false]

  const FORMAT_GENERATOR := [true, false, true, false, false, true, true, false, true, true, true]

  const VERSION_GENERATOR := [true, true, true, true, true, false, false, true, false, false, true, false, true]

  lemma LastBit(n: nat, width: nat)
    ensures Bits(n, width + 1) == Bits(n / 2, width) + [n % 2 == 1]
  {}

  lemma LastTwoOf(n: nat, width: nat)
    ensures Bits(n, width + 2) == Bits(n / 4, width) + [n / 2 % 2 == 1, n % 2 == 1]
  {
    LastBit(n, width + 1);
    LastBit(n / 2, width);
    hide Bits;
    assert n / 2 / 2 == n / 4;
  }

  lemma HalfOfHalf(n: nat)
    ensures n / 2 / 2 == n / 4 && n / 4 / 2 == n / 8 && n / 8 / 2 == n / 16 && n / 4 / 4 == n / 16
  {}

  lemma LastFourBits(n: nat, width: nat)
    ensures Bits(n, width + 4) == Bits(n / 16, width) + [n / 8 % 2 == 1, n / 4 % 2 == 1, n / 2 % 2 == 1, n % 2 == 1]
  {
    hide Bits;
    LastTwoOf(n, width + 2);
    LastTwoOf(n / 4, width);
    HalfOfHalf(n);
  }

  lemma FormatMaskBits()
    ensures FormatMask() == FORMAT_MASK
  {
    hide Bits;
    LastFourBits(0x5412, 11);
    LastFourBits(0x541, 7);
    LastFourBits(0x54, 3);
    LastThreeBits(5, 0);
    assert Bits(5, 3) == [true, false, true];
  }

  lemma LastThreeBits(n: nat, width: nat)
    ensures Bits(n, width + 3) == Bits(n / 8, width) + [n / 4 % 2 == 1, n / 2 % 2 == 1, n % 2 == 1]
    ensures Bits(n, 0) == []
  {
    LastBit(n, width + 2); LastBit(n / 2, width + 1); LastBit(n / 4, width);
    assert n / 2 / 2 == n / 4 && n / 4 / 2 == n / 8;
  }

  /** What is left of the format information when the fixed mask is taken off. */
  function FormatUnmasked(ecc: Ecc, mask: nat): (s: seq<bool>)
    ensures |s| == 15
  {
    var info := FormatInfo(ecc, mask);
    seq(15, i requires 0 <= i < 15 => info[i] != FORMAT_MASK[i])
  }

  /**
   Under its mask, the format information starts with the code of the level
   (01 for L, 00 for M, 11 for Q, 10 for H) and the number of the mask, and as
   a polynomial it is a multiple of the standard's generator.
   */
  lemma FormatWordIsPublished(ecc: Ecc, mask: nat)
    requires mask < 8
    ensures var word := FormatUnmasked(ecc, mask);
            && word[..2] == (match ecc case Low => [false, true] case Medium => [false, false]
                             case Quartile => [true, true] case High => [true, false])
            && word[2..5] == [mask >= 4, mask % 4 >= 2, mask % 2 == 1]
            && IsMultiple(word, FORMAT_GENERATOR)
  {
    hide FormatUnmasked, FormatWord, IsMultiple, FORMAT_GENERATOR, Bits;
    var data := FormatLevel(ecc) * 8 + mask;
    var word := FormatUnmasked(ecc, mask);
    UnmaskedIsWord(ecc, mask);
    FormatNumberDivides(data);
    FormatTaps();
    FiveBits(data, FormatLevel(ecc), mask);
    WordStarts(data);
    assert word[..2] == word[..5][..2] && word[2..5] == word[..5][2..];
  }

  lemma UnmaskedIsWord(ecc: Ecc, mask: nat)
    ensures FormatUnmasked(ecc, mask) == FormatWord(FormatLevel(ecc) * 8 + mask)
  {
    hide FormatWord, FORMAT_MASK, FormatMask;
    FormatMaskBits();
  }

  lemma WordStarts(data: nat)
    ensures FormatWord(data)[..5] == Bits(data, 5)
  {
    hide Bits, CheckBits;
  }

  lemma FormatTaps()
    ensures [true] + Bits(0x137, 10) == FORMAT_GENERATOR
  {
    hide Bits;
    LastFourBits(0x137, 6);
    LastFourBits(0x13, 2);
    LastTwoBits(1);
  }

  lemma LastTwoBits(n: nat)
    ensures Bits(n, 2) == [n / 2 % 2 == 1, n % 2 == 1]
  {}

  lemma FieldsOfFormat(n: nat, level: nat, mask: nat)
    requires level < 4 && mask < 8 && n == level * 8 + mask
    ensures n / 8 == level
    ensures n / 4 % 2 == 1 <==> mask >= 4
    ensures n / 2 % 2 == 1 <==> mask % 4 >= 2
    ensures n % 2 == 1 <==> mask % 2 == 1
  {
    assert n / 4 == 2 * level + mask / 4 && n / 2 == 4 * level + mask / 2;
  }

  lemma LevelBits(level: nat)
    requires level < 4
    ensures Bits(level, 2) == [level >= 2, level % 2 == 1]
  {
    hide Bits;
    LastTwoBits(level);
  }

  lemma FiveBits(n: nat, level: nat, mask: nat)
    requires level < 4 && mask < 8 && n == level * 8 + mask
    ensures Bits(n, 5) == [level >= 2, level % 2 == 1, mask >= 4, mask % 4 >= 2, mask % 2 == 1]
  {
    hide Bits;
    FieldsOfFormat(n, level, mask);
    LastThreeBits(n, 2);
    LevelBits(level);
  }

  /**
   From version 7 on, bit `i` of the version information stands in column `i / 3` above the
   lower finder and across.
   */
  lemma VersionIsPublished(version: Version, ecc: Ecc, codewords: seq<byte>, mask: nat, i: nat)
    requires mask < 8 && 7 <= version && i < 18
    ensures var dark, a := SymbolDark(version, ecc, codewords, mask), Size(version) - 11 + i % 3;
            && (Pos(i / 3, a) in dark <==> VersionInfo(version)[17 - i])
            && (Pos(a, i / 3) in dark <==> VersionInfo(version)[17 - i])
  {
    var a := Size(version) - 11 + i % 3;
    VersionColour(version, i, Pos(i / 3, a));
    VersionColour(version, i, Pos(a, i / 3));
    PatternShows(version, ecc, codewords, mask, Pos(i / 3, a));
    PatternShows(version, ecc, codewords, mask, Pos(a, i / 3));
  }

  lemma VersionColour(version: Version, i: nat, p: Pos)
    requires 7 <= version && i < 18
    requires var a := Size(version) - 11 + i % 3; p == Pos(i / 3, a) || p == Pos(a, i / 3)
    ensures Reserved(version, p) && !FormatZone(Size(version), p)
    ensures PatternDark(version, p) <==> VersionInfo(version)[17 - i]
  {
    hide VersionZone, VersionBit, VersionInfo, FormatZone, PatternDark, Reserved;
    VersionModules(version, i, p);
    VersionZoneInGrid(version);
    VersionIsNotFormat(version, p);
    VersionIsOnTop(version, p);
  }

  lemma VersionIsOnTop(version: Version, p: Pos)
    requires InGrid(Size(version), p) && VersionZone(version, p) && !FormatZone(Size(version), p)
    requires VersionBit(version, p) < 18
    ensures Reserved(version, p)
    ensures PatternDark(version, p) <==> LowBit(VersionInfo(version), VersionBit(version, p))
  {
    hide VersionZone, VersionBit, VersionInfo, FormatZone, Alignment, Finder, FinderDark, IsAlignmentCentre, Ring;
  }

  lemma VersionIsNotFormat(version: Version, p: Pos)
    ensures VersionZone(version, p) ==> !FormatZone(Size(version), p)
  {}

  /** The version information starts with the version in six bits and is a multiple of the standard's generator. */
  lemma VersionWordIsPublished(version: Version)
    ensures VersionInfo(version)[..6]
         == [false, false, version >= 8, version % 8 >= 4, version % 4 >= 2, version % 2 == 1]
    ensures IsMultiple(VersionInfo(version), VERSION_GENERATOR)
  {
    VersionWordDivides(version);
    VersionTaps();
    SixBits(version);
    hide CheckBits, IsMultiple, VERSION_GENERATOR, Bits;
    assert VersionInfo(version)[..6] == Bits(version, 6);
  }

  lemma VersionTaps()
    ensures [true] + Bits(0xF25, 12) == VERSION_GENERATOR
  {
    hide Bits;
    LastFourBits(0xF25, 8);
    LastFourBits(0xF2, 4);
    LastFourBits(0xF, 0);
    LastThreeBits(0, 0);
  }

  lemma SixBits(version: Version)
    ensures Bits(version, 6) == [false, false, version >= 8, version % 8 >= 4, version % 4 >= 2, version % 2 == 1]
  {
    hide Bits;
    LastFourBits(version, 2);
    LastTwoBits(0);
  }

  // ----- The bit stream -----

  /** Where the message ends in the bits of the stream, and where its zeros end in the codewords. */
  function MessageEnd(length: nat, version: Version): nat {
    (if version < 10 then 12 else 20) + 8 * length
  }

  function ZerosEnd(end: nat, capacity: nat): nat {
    if end + 4 > 8 * capacity then capacity else (end + 11) / 8
  }

  /**
   The data codewords spell the mode 0100, the length of the message in 8 bits
   up to version 9 and in 16 from there, and the message.
   */
  lemma StreamIsPublished(data: seq<byte>, bytes: seq<byte>, version: Version, capacity: nat)
    requires IsPadded(data, bytes, version, capacity)
    ensures var bits, start, end := ByteBits(data), MessageEnd(0, version), MessageEnd(|bytes|, version);
            && end <= |bits|
            && bits[..4] == [false, true, false, false]
            && bits[4..start] == Bits(|bytes|, start - 4)
            && bits[start..end] == ByteBits(bytes)
  {
    hide Bits, ByteBits, IsPadded, MessageEnd, CountBits;
    PaddedStartsWithMessage(data, bytes, version, capacity);
    ModeBits();
    HeaderEnd(|bytes|, version);
    Fields(Bits(MODE_BYTE, 4), Bits(|bytes|, CountBits(version)), ByteBits(bytes), ByteBits(data));
  }

  lemma HeaderEnd(length: nat, version: Version)
    ensures MessageEnd(0, version) == 4 + CountBits(version)
    ensures MessageEnd(length, version) == 4 + CountBits(version) + 8 * length
  {}

  lemma Fields(a: seq<bool>, b: seq<bool>, c: seq<bool>, bits: seq<bool>)
    requires a + b + c <= bits
    ensures bits[..|a|] == a && bits[|a|..|a| + |b|] == b && bits[|a| + |b|..|a| + |b| + |c|] == c
  {
    var whole := a + b + c;
    assert bits[..|a|] == whole[..|a|] && bits[|a|..|a| + |b|] == whole[|a|..|a| + |b|];
    assert bits[|a| + |b|..|whole|] == whole[|a| + |b|..];
  }

  /** After the message come at most four zero bits, zeros to the end of that codeword, and 236 and 17 by turns. */
  lemma PaddingIsPublished(data: seq<byte>, bytes: seq<byte>, version: Version, capacity: nat)
    requires IsPadded(data, bytes, version, capacity)
    ensures var end := MessageEnd(|bytes|, version);
            var full := ZerosEnd(end, capacity);
            && |data| == capacity >= full
            && (forall i :: end <= i < 8 * full ==> !ByteBits(data)[i])
            && (forall k :: full <= k < capacity ==> data[k] == if (k - full) % 2 == 0 then 236 else 17)
  {
    hide ZerosEnd, ZeroBits, MessageEnd, Bits, ByteBits, MessageBits;
    var message := MessageBits(bytes, version);
    MessageLength(bytes, version);
    ZerosEndThere(|message|, capacity);
    ZeroBitsFit(|message|, capacity);
    var full := ZerosEnd(|message|, capacity);
    var zeros := seq(ZeroBits(|message|, capacity), _ => false);
    assert data[..full] + data[full..] == data;
    ByteBitsAppend(data[..full], data[full..]);
    ZerosFollow(message, zeros, ByteBits(data[full..]), ByteBits(data));
  }

  lemma ZerosFollow(a: seq<bool>, zeros: seq<bool>, c: seq<bool>, bits: seq<bool>)
    requires bits == a + zeros + c && forall i :: 0 <= i < |zeros| ==> !zeros[i]
    ensures forall i :: |a| <= i < |a| + |zeros| ==> !bits[i]
  {
    assert forall i :: |a| <= i < |a| + |zeros| ==> bits[i] == zeros[i - |a|];
  }

  lemma MessageLength(bytes: seq<byte>, version: Version)
    ensures |MessageBits(bytes, version)| == MessageEnd(|bytes|, version)
  {}

  lemma ZerosEndThere(end: nat, capacity: nat)
    requires end <= 8 * capacity
    ensures (end + ZeroBits(end, capacity)) / 8 == ZerosEnd(end, capacity)
  {}

  lemma ModeBits()
    ensures Bits(MODE_BYTE, 4) == [false, true, false, false]
  {}

  /** The octet of a byte holds its bits, the coefficient of x^7 being worth 128. */
  lemma OctetsSpellBytes(n: byte)
    ensures var o := G.FromByte(n);
            n == 128 * Digit(o.b7) + 64 * Digit(o.b6) + 32 * Digit(o.b5) + 16 * Digit(o.b4)
                 + 8 * Digit(o.b3) + 4 * Digit(o.b2) + 2 * Digit(o.b1) + Digit(o.b0)
  {
    var s := Bits(n, 8);
    OctetIs(n, s);
    HighDigits(n, n / 16, s);
    LowDigits(n, s);
    hide Bits, Digit, G.FromByte, FourWeights;
    WeightsAdd(n, n / 16, n % 16, s);
  }

  lemma OctetIs(n: byte, s: seq<bool>)
    requires s == Bits(n, 8)
    ensures G.FromByte(n) == G.Octet(s[0], s[1], s[2], s[3], s[4], s[5], s[6], s[7])
  {
    hide Bits;
  }

  function FourWeights(s: seq<bool>, at: nat): nat
    requires at + 4 <= |s|
  {
    8 * Digit(s[at]) + 4 * Digit(s[at + 1]) + 2 * Digit(s[at + 2]) + Digit(s[at + 3])
  }

  lemma WeightsAdd(n: nat, high: nat, low: nat, s: seq<bool>)
    requires |s| == 8 && n == 16 * high + low && high == FourWeights(s, 0) && low == FourWeights(s, 4)
    ensures n == 128 * Digit(s[0]) + 64 * Digit(s[1]) + 32 * Digit(s[2]) + 16 * Digit(s[3])
                 + 8 * Digit(s[4]) + 4 * Digit(s[5]) + 2 * Digit(s[6]) + Digit(s[7])
  {
    hide Digit;
  }

  lemma HighDigits(n: byte, h: nat, s: seq<bool>)
    requires h == n / 16 && s == Bits(n, 8)
    ensures h == FourWeights(s, 0)
  {
    hide Bits, Digit;
    OctetBits(n, h);
    Nibble(h);
    assert h % 16 == h;
  }

  lemma LowDigits(n: byte, s: seq<bool>)
    requires s == Bits(n, 8)
    ensures n % 16 == FourWeights(s, 4)
  {
    hide Bits, Digit;
    OctetBits(n, n / 16);
    Nibble(n);
  }

  lemma OctetBits(n: byte, h: nat)
    requires h == n / 16
    ensures Bits(n, 8) == [h / 8 % 2 == 1, h / 4 % 2 == 1, h / 2 % 2 == 1, h % 2 == 1,
                           n / 8 % 2 == 1, n / 4 % 2 == 1, n / 2 % 2 == 1, n % 2 == 1]
  {
    hide Bits;
    LastFourBits(n, 4);
    LastFourBits(h, 0);
    LastThreeBits(h / 16, 0);
  }

  lemma Nibble(n: nat)
    ensures n % 16 == 8 * Digit(n / 8 % 2 == 1) + 4 * Digit(n / 4 % 2 == 1) + 2 * Digit(n / 2 % 2 == 1)
                      + Digit(n % 2 == 1)
  {
    HalfOfHalf(n);
    HalfAndRest(n); HalfAndRest(n / 2); HalfAndRest(n / 4); HalfAndRest(n / 8);
    hide Digit;
  }

  lemma HalfAndRest(n: nat)
    ensures n == 2 * (n / 2) + Digit(n % 2 == 1)
  {}

  // ----- Penalties -----

  /** Seven modules from `a` on in the proportions of a finder. */
  predicate LikeFinder(s: seq<bool>, a: nat) {
    a + 7 <= |s| && s[a] && !s[a + 1] && s[a + 2] && s[a + 3] && s[a + 4] && !s[a + 5] && s[a + 6]
  }

  predicate FourLight(s: seq<bool>, a: nat) {
    a + 4 <= |s| && !s[a] && !s[a + 1] && !s[a + 2] && !s[a + 3]
  }

  /** Rule 3 looks for 1:1:3:1:1 with four light modules on one side. */
  lemma RuleThreeIsPublished(s: seq<bool>, a: nat)
    ensures LooksLikeFinder(s, a) <==>
              || (LikeFinder(s, a) && FourLight(s, a + 7))
              || (FourLight(s, a) && LikeFinder(s, a + 4))
  {
    if a + 11 <= |s| {
      var t := s[a..a + 11];
      ForwardLike(t);
      BackwardLike(t);
      assert LikeFinder(s, a) == LikeFinder(t, 0) && FourLight(s, a + 7) == FourLight(t, 7);
      assert FourLight(s, a) == FourLight(t, 0) && LikeFinder(s, a + 4) == LikeFinder(t, 4);
    }
  }

  lemma ForwardLike(t: seq<bool>)
    requires |t| == 11
    ensures t == FINDER_LIKE <==> LikeFinder(t, 0) && FourLight(t, 7)
  {
    if LikeFinder(t, 0) && FourLight(t, 7) {
      assert forall i :: 0 <= i < 11 ==> t[i] == FINDER_LIKE[i];
    }
  }

  lemma BackwardLike(t: seq<bool>)
    requires |t| == 11
    ensures t == Backwards(FINDER_LIKE) <==> FourLight(t, 0) && LikeFinder(t, 4)
  {
    var back := [false, false, false, false, true, false, true, true, true, false, true];
    assert forall i :: 0 <= i < 11 ==> back[i] == FINDER_LIKE[10 - i];
    assert Backwards(FINDER_LIKE) == back;
    hide Backwards, FINDER_LIKE;
    if FourLight(t, 0) && LikeFinder(t, 4) {
      assert forall i :: 0 <= i < 11 ==> t[i] == back[i];
    }
  }

  /** Rule 4 counts every five percent by which the dark share is more than that away from half. */
  lemma RuleFourIsPublished(dark: nat, total: nat, k: nat)
    requires total > 0 && k > 0
    ensures BalanceSteps(dark, total) >= k <==> 20 * dark > (10 + k) * total || 20 * dark < (10 - k) * total
  {
    StepsCountFivePercents(dark, total, k);
    assert (10 + k) * total == 10 * total + k * total && (10 - k) * total == 10 * total - k * total;
  }

  // ----- Blocks and capacities -----

  /** Check codewords per block, blocks, and bytes that fit, per version and level. */
  function PublishedRow(version: Version, ecc: Ecc): (nat, nat, nat) {
    var v := version - 1;
    match ecc
    case Low => ([7, 10, 15, 20, 26, 18, 20, 24, 30, 18][v], [1, 1, 1, 1, 1, 2, 2, 2, 2, 4][v],
                 [17, 32, 53, 78, 106, 134, 154, 192, 230, 271][v])
    case Medium => ([10, 16, 26, 18, 24, 16, 18, 22, 22, 26][v], [1, 1, 1, 2, 2, 4, 4, 4, 5, 5][v],
                    [14, 26, 42, 62, 84, 106, 122, 152, 180, 213][v])
    case Quartile => ([13, 22, 18, 26, 18, 24, 18, 22, 20, 24][v], [1, 1, 2, 2, 4, 4, 6, 6, 8, 8][v],
                      [11, 20, 32, 46, 60, 74, 86, 108, 130, 151][v])
    case High => ([17, 28, 22, 16, 22, 28, 26, 26, 24, 28][v], [1, 1, 2, 4, 4, 4, 5, 6, 8, 8][v],
                  [7, 14, 24, 34, 44, 58, 64, 84, 98, 119][v])
  }

  /** The check codewords, the number of blocks and the capacity of every symbol are those of the standard. */
  lemma RowsArePublished(version: Version, ecc: Ecc)
    ensures var r := BlockRow(version, ecc);
            (r.check, r.short + r.long, CapacityBytes(version, ecc)) == PublishedRow(version, ecc)
  {
    CapacityFromPublished(version, ecc);
    hide CapacityBytes, PublishedDataCodewords;
    match ecc
    case Low => LowRowsArePublished(version);
    case Medium => MediumRowsArePublished(version);
    case Quartile => QuartileRowsArePublished(version);
    case High => HighRowsArePublished(version);
  }

  lemma CapacityFromPublished(version: Version, ecc: Ecc)
    ensures CapacityBytes(version, ecc) == PublishedDataCodewords(version, ecc) - if version < 10 then 2 else 3
  {
    TablesAreConsistent(version, ecc);
    hide BlockRow, PublishedDataCodewords, Row.DataCodewords, TotalCodewords, Row.TotalCodewords;
  }

  lemma LowRowsArePublished(version: Version)
    ensures var r, p := BlockRow(version, Low), PublishedRow(version, Low);
            r.check == p.0 && r.short + r.long == p.1
            && PublishedDataCodewords(version, Low) - (if version < 10 then 2 else 3) == p.2
  {}

  lemma MediumRowsArePublished(version: Version)
    ensures var r, p := BlockRow(version, Medium), PublishedRow(version, Medium);
            r.check == p.0 && r.short + r.long == p.1
            && PublishedDataCodewords(version, Medium) - (if version < 10 then 2 else 3) == p.2
  {}

  lemma QuartileRowsArePublished(version: Version)
    ensures var r, p := BlockRow(version, Quartile), PublishedRow(version, Quartile);
            r.check == p.0 && r.short + r.long == p.1
            && PublishedDataCodewords(version, Quartile) - (if version < 10 then 2 else 3) == p.2
  {}

  lemma HighRowsArePublished(version: Version)
    ensures var r, p := BlockRow(version, High), PublishedRow(version, High);
            r.check == p.0 && r.short + r.long == p.1
            && PublishedDataCodewords(version, High) - (if version < 10 then 2 else 3) == p.2
  {}
}
