/**
 The symbol has room: counting the modules that no function pattern reserves
 shows that each version holds exactly its tabulated number of codewords, with
 fewer than eight modules to spare.
 */
module QrRoom {
  import opened QrTables
  import opened QrWalk
  import opened QrCanvas
  import opened QrPatterns

  /** Remainder bits per version, ISO/IEC 18004 table 1. */
  function RemainderBits(version: Version): nat {
    if 2 <= version <= 6 then 7 else 0
  }

  // ----- Counting row by row -----

  /** Modules outside `r` in the first `x` columns of row `y`. */
  ghost function RowFree(r: set<Pos>, y: int, x: nat): nat {
    if x == 0 then 0 else RowFree(r, y, x - 1) + (if Pos(x - 1, y) in r then 0 else 1)
  }

  /** Modules outside `r` in the first `y` rows. */
  ghost function AreaFree(r: set<Pos>, size: nat, y: nat): nat {
    if y == 0 then 0 else AreaFree(r, size, y - 1) + RowTotal(r, size, y - 1)
  }

  ghost function RowTotal(r: set<Pos>, size: nat, y: int): nat {
    RowFree(r, y, size)
  }

  lemma {:induction false} Taken(r: set<Pos>, y: int, a: nat, b: nat)
    requires a <= b && forall x :: a <= x < b ==> Pos(x, y) in r
    ensures RowFree(r, y, b) == RowFree(r, y, a)
    decreases b - a
  {
    if a < b {
      Taken(r, y, a, b - 1);
    }
  }

  lemma {:induction false} Free(r: set<Pos>, y: int, a: nat, b: nat)
    requires a <= b && forall x :: a <= x < b ==> Pos(x, y) !in r
    ensures RowFree(r, y, b) == RowFree(r, y, a) + (b - a)
    decreases b - a
  {
    if a < b {
      Free(r, y, a, b - 1);
    }
  }

  lemma {:induction false} Band(r: set<Pos>, size: nat, a: nat, b: nat, count: nat, total: nat)
    requires a <= b && total == (b - a) * count
    requires forall y :: a <= y < b ==> RowTotal(r, size, y) == count
    ensures AreaFree(r, size, b) == AreaFree(r, size, a) + total
    decreases b - a
  {
    hide RowTotal;
    if a < b {
      assert (b - a) * count == (b - 1 - a) * count + count;
      Band(r, size, a, b - 1, count, total - count);
      assert RowTotal(r, size, b - 1) == count;
    }
  }

  // ----- The reserved region in terms of intervals -----

  /** Timing, finder and format modules. */
  predicate Frame(s: nat, p: Pos) {
    || p.x == 6 || p.y == 6
    || (p.x <= 8 && p.y <= 8) || (p.x >= s - 8 && p.y <= 8) || (p.x <= 8 && p.y >= s - 8)
  }

  predicate Around(p: Pos, x: int, y: int) {
    x - 2 <= p.x <= x + 2 && y - 2 <= p.y <= y + 2
  }

  /** The alignment patterns, by version group; the last coordinate is `s - 7` and the middle one `(s - 1) / 2`. */
  predicate Squares(version: Version, p: Pos) {
    var c, m := Size(version) - 7, (Size(version) - 1) / 2;
    || (version >= 2 && Around(p, c, c))
    || (version >= 7 && (Around(p, 6, m) || Around(p, m, 6) || Around(p, m, m) || Around(p, m, c) || Around(p, c, m)))
  }

  predicate Region(version: Version, p: Pos) {
    Frame(Size(version), p) || Squares(version, p) || VersionZone(version, p)
  }

  lemma FrameIsFrame(s: nat, p: Pos)
    requires s >= 21 && InGrid(s, p)
    ensures Frame(s, p) <==> Timing(p) || Finder(s, p) || FormatZone(s, p)
  {}

  lemma AroundIsRing(p: Pos, c: Pos)
    ensures Around(p, c.x, c.y) <==> Ring(p, c) <= 2
  {}

  lemma CoordinatesByRule(version: Version)
    ensures var s := Coordinates(version);
            && (version >= 2 ==> s[0] == 6 && s[|s| - 1] == Size(version) - 7)
            && (version >= 7 ==> s[1] == (Size(version) - 1) / 2)
  {}

  lemma SquaresAreAlignments(version: Version, p: Pos)
    ensures Squares(version, p) <==> Alignment(version, p)
  {
    var s := Coordinates(version);
    CoordinatesByRule(version);
    hide Ring, Around, Coordinates, Size;
    if Alignment(version, p) {
      var c :| IsAlignmentCentre(version, c) && Ring(p, c) <= 2;
      AroundIsRing(p, c);
    }
    var c, m := Size(version) - 7, (Size(version) - 1) / 2;
    if version >= 2 {
      AroundIsRing(p, Pos(c, c));
      assert Pos(c, c) == Pos(s[|s| - 1], s[|s| - 1]) && !Corner(|s| - 1, |s| - 1, |s| - 1);
    }
    if version >= 7 {
      assert !Corner(0, 1, 2) && !Corner(1, 0, 2) && !Corner(1, 1, 2) && !Corner(1, 2, 2) && !Corner(2, 1, 2);
      AroundIsRing(p, Pos(s[0], s[1])); AroundIsRing(p, Pos(s[1], s[0])); AroundIsRing(p, Pos(s[1], s[1]));
      AroundIsRing(p, Pos(s[1], s[2])); AroundIsRing(p, Pos(s[2], s[1]));
    }
  }

  lemma RegionIsReserved(version: Version, p: Pos)
    requires InGrid(Size(version), p)
    ensures Region(version, p) <==> Reserved(version, p)
  {
    hide Frame, Squares, Alignment, Timing, Finder, FormatZone, VersionZone;
    FrameIsFrame(Size(version), p);
    SquaresAreAlignments(version, p);
  }

  /** `r` is the set of reserved modules, as the drawing methods leave it. */
  ghost predicate IsReservedSet(version: Version, r: set<Pos>) {
    forall p :: p in r <==> Reserved(version, p)
  }

  ghost predicate MatchesRegion(version: Version, r: set<Pos>) {
    forall p :: InGrid(Size(version), p) ==> (p in r <==> Region(version, p))
  }

  // ----- Row by row -----

  /** Free modules in row `y` of a version 1 symbol. */
  function SmallRowCount(y: nat): nat {
    if y == 6 then 0 else if y <= 8 then 4 else if y < 13 then 20 else 12
  }

  lemma SmallRow(r: set<Pos>, y: nat)
    requires MatchesRegion(1, r) && y < 21
    ensures RowTotal(r, 21, y) == SmallRowCount(y)
  {
    if y == 6 {
      Taken(r, y, 0, 21);
    } else if y <= 8 {
      Taken(r, y, 0, 9);
      Free(r, y, 9, 13);
      Taken(r, y, 13, 21);
    } else if y < 13 {
      Free(r, y, 0, 6);
      Taken(r, y, 6, 7);
      Free(r, y, 7, 21);
    } else {
      Taken(r, y, 0, 9);
      Free(r, y, 9, 21);
    }
  }

  lemma SmallArea(r: set<Pos>)
    requires MatchesRegion(1, r)
    ensures AreaFree(r, 21, 21) == 208
  {
    forall y: nat | y < 21
      ensures RowTotal(r, 21, y) == SmallRowCount(y)
    {
      SmallRow(r, y);
    }
    hide RowTotal;
    Band(r, 21, 0, 6, 4, 24);
    Band(r, 21, 6, 7, 0, 0);
    Band(r, 21, 7, 9, 4, 8);
    Band(r, 21, 9, 13, 20, 80);
    Band(r, 21, 13, 21, 12, 96);
  }

  /** A row with nothing in it. */
  lemma FullRow(r: set<Pos>, s: nat, y: int)
    requires forall x :: 0 <= x < s ==> Pos(x, y) in r
    ensures RowTotal(r, s, y) == 0
  {
    Taken(r, y, 0, s);
  }

  /** A row free in [a, b) alone. */
  lemma PlainRow(r: set<Pos>, s: nat, y: int, a: nat, b: nat)
    requires a <= b <= s
    requires forall x :: 0 <= x < s ==> (Pos(x, y) in r <==> x < a || x >= b)
    ensures RowTotal(r, s, y) == b - a
  {
    Taken(r, y, 0, a);
    Free(r, y, a, b);
    Taken(r, y, b, s);
  }

  /** A row free but for column 6. */
  lemma OpenRow(r: set<Pos>, s: nat, y: int)
    requires s > 6
    requires forall x :: 0 <= x < s ==> (Pos(x, y) in r <==> x == 6)
    ensures RowTotal(r, s, y) == s - 1
  {
    Free(r, y, 0, 6);
    Taken(r, y, 6, 7);
    Free(r, y, 7, s);
  }

  /** A row free in [a, b) but for one square of five from `u`. */
  lemma OneSquareRow(r: set<Pos>, s: nat, y: int, a: nat, b: nat, u: nat)
    requires a <= u && u + 5 <= b <= s
    requires forall x :: 0 <= x < s ==> (Pos(x, y) in r <==> x < a || x >= b || u <= x < u + 5)
    ensures RowTotal(r, s, y) == b - a - 5
  {
    Taken(r, y, 0, a);
    Free(r, y, a, u);
    Taken(r, y, u, u + 5);
    Free(r, y, u + 5, b);
    Taken(r, y, b, s);
  }

  /** A row free in [a, s) but for squares of five from `u` and from `v`. */
  lemma TwoSquareRow(r: set<Pos>, s: nat, y: int, a: nat, u: nat, v: nat)
    requires a <= u && u + 5 <= v && v + 5 <= s
    requires forall x :: 0 <= x < s ==> (Pos(x, y) in r <==> x < a || u <= x < u + 5 || v <= x < v + 5)
    ensures RowTotal(r, s, y) == s - a - 10
  {
    Taken(r, y, 0, a);
    Free(r, y, a, u);
    Taken(r, y, u, u + 5);
    Free(r, y, u + 5, v);
    Taken(r, y, v, v + 5);
    Free(r, y, v + 5, s);
  }

  /** A row free but for squares of five from 4, `u` and `v`. */
  lemma ThreeSquareRow(r: set<Pos>, s: nat, y: int, u: nat, v: nat)
    requires 9 <= u && u + 5 <= v && v + 5 <= s
    requires forall x :: 0 <= x < s ==> (Pos(x, y) in r <==> 4 <= x < 9 || u <= x < u + 5 || v <= x < v + 5)
    ensures RowTotal(r, s, y) == s - 15
  {
    Free(r, y, 0, 4);
    Taken(r, y, 4, 9);
    Free(r, y, 9, u);
    Taken(r, y, u, u + 5);
    Free(r, y, u + 5, v);
    Taken(r, y, v, v + 5);
    Free(r, y, v + 5, s);
  }

  /** A row free but for column 6 and one square of five from `u`. */
  lemma OpenSquareRow(r: set<Pos>, s: nat, y: int, u: nat)
    requires 7 <= u && u + 5 <= s
    requires forall x :: 0 <= x < s ==> (Pos(x, y) in r <==> x == 6 || u <= x < u + 5)
    ensures RowTotal(r, s, y) == s - 6
  {
    Free(r, y, 0, 6);
    Taken(r, y, 6, 7);
    Free(r, y, 7, u);
    Taken(r, y, u, u + 5);
    Free(r, y, u + 5, s);
  }

  /** Free modules in row `y` for versions 2 to 6, with one alignment pattern. */
  function MediumRowCount(s: nat, y: nat): int {
    if y == 6 then 0
    else if y <= 8 then s - 17
    else if y < s - 9 then s - 1
    else if y == s - 9 then s - 6
    else if y <= s - 5 then s - 14
    else s - 9
  }

  lemma MediumRow(version: Version, r: set<Pos>, s: nat, y: nat)
    requires 2 <= version <= 6 && s == Size(version) && MatchesRegion(version, r) && y < s
    ensures RowTotal(r, s, y) == MediumRowCount(s, y)
  {
    hide RowTotal;
    if y == 6 {
      FullRow(r, s, y);
    } else if y <= 8 {
      PlainRow(r, s, y, 9, s - 8);
    } else if y < s - 9 {
      OpenRow(r, s, y);
    } else if y == s - 9 {
      OpenSquareRow(r, s, y, s - 9);
    } else if y <= s - 5 {
      OneSquareRow(r, s, y, 9, s, s - 9);
    } else {
      PlainRow(r, s, y, 9, s);
    }
  }

  ghost predicate MediumRows(r: set<Pos>, s: nat) {
    forall y: nat :: y < s ==> RowTotal(r, s, y) == MediumRowCount(s, y)
  }

  lemma MediumTop(r: set<Pos>, s: nat)
    requires s >= 25 && MediumRows(r, s)
    ensures AreaFree(r, s, s - 9) == 8 * (s - 17) + (s - 18) * (s - 1)
  {
    hide RowTotal, AreaFree;
    Band(r, s, 0, 6, s - 17, 6 * (s - 17));
    Band(r, s, 6, 7, 0, 0);
    Band(r, s, 7, 9, s - 17, 2 * (s - 17));
    Band(r, s, 9, s - 9, s - 1, (s - 18) * (s - 1));
    NoRows(r, s);
  }

  lemma NoRows(r: set<Pos>, s: nat)
    ensures AreaFree(r, s, 0) == 0
  {}

  lemma MediumBottom(r: set<Pos>, s: nat)
    requires s >= 25 && MediumRows(r, s)
    ensures AreaFree(r, s, s) == AreaFree(r, s, s - 9) + (s - 6) + 4 * (s - 14) + 4 * (s - 9)
  {
    hide RowTotal;
    Band(r, s, s - 9, s - 8, s - 6, s - 6);
    Band(r, s, s - 8, s - 4, s - 14, 4 * (s - 14));
    Band(r, s, s - 4, s, s - 9, 4 * (s - 9));
  }

  lemma MediumArea(version: Version, r: set<Pos>, s: nat)
    requires 2 <= version <= 6 && s == Size(version) && MatchesRegion(version, r)
    ensures AreaFree(r, s, s) == 8 * (s - 17) + (s - 18) * (s - 1) + (s - 6) + 4 * (s - 14) + 4 * (s - 9)
  {
    hide RowTotal, MatchesRegion, AreaFree;
    forall y: nat | y < s
      ensures RowTotal(r, s, y) == MediumRowCount(s, y)
    {
      MediumRow(version, r, s, y);
    }
    MediumTop(r, s);
    MediumBottom(r, s);
  }

  /** Free modules in row `y` for versions 7 to 10, with six alignment patterns and version information. */
  function LargeRowCount(s: nat, m: int, y: nat): int {
    if y <= 3 then s - 20
    else if y <= 5 then s - 25
    else if y == 6 then 0
    else if y <= 8 then s - 22
    else if y < m - 2 then s - 1
    else if y <= m + 2 then s - 15
    else if y < s - 11 then s - 1
    else if y <= s - 10 then s - 7
    else if y == s - 9 then s - 17
    else if y <= s - 5 then s - 19
    else s - 9
  }

  lemma LargeTopRow(version: Version, r: set<Pos>, s: nat, m: nat, y: nat)
    requires version >= 7 && s == Size(version) && m == (s - 1) / 2 && MatchesRegion(version, r) && y <= 8
    ensures RowTotal(r, s, y) == LargeRowCount(s, m, y)
  {
    hide RowTotal;
    if y <= 3 {
      PlainRow(r, s, y, 9, s - 11);
    } else if y <= 5 {
      OneSquareRow(r, s, y, 9, s - 11, m - 2);
    } else if y == 6 {
      FullRow(r, s, y);
    } else {
      OneSquareRow(r, s, y, 9, s - 8, m - 2);
    }
  }

  lemma LargeMiddleRow(version: Version, r: set<Pos>, s: nat, m: nat, y: nat)
    requires version >= 7 && s == Size(version) && m == (s - 1) / 2 && MatchesRegion(version, r) && 9 <= y < s - 11
    ensures RowTotal(r, s, y) == LargeRowCount(s, m, y)
  {
    hide RowTotal;
    if m - 2 <= y <= m + 2 {
      ThreeSquareRow(r, s, y, m - 2, s - 9);
    } else {
      OpenRow(r, s, y);
    }
  }

  lemma LargeBottomRow(version: Version, r: set<Pos>, s: nat, m: nat, y: nat)
    requires version >= 7 && s == Size(version) && m == (s - 1) / 2 && MatchesRegion(version, r) && s - 11 <= y < s
    ensures RowTotal(r, s, y) == LargeRowCount(s, m, y)
  {
    hide RowTotal;
    if y < s - 9 {
      PlainRow(r, s, y, 7, s);
    } else if y == s - 9 {
      TwoSquareRow(r, s, y, 7, m - 2, s - 9);
    } else if y <= s - 5 {
      TwoSquareRow(r, s, y, 9, m - 2, s - 9);
    } else {
      PlainRow(r, s, y, 9, s);
    }
  }

  ghost predicate LargeRows(r: set<Pos>, s: nat, m: nat) {
    forall y: nat :: y < s ==> RowTotal(r, s, y) == LargeRowCount(s, m, y)
  }

  lemma LargeTop(r: set<Pos>, s: nat, m: nat)
    requires s >= 45 && m == (s - 1) / 2 && LargeRows(r, s, m)
    ensures AreaFree(r, s, 9) == 4 * (s - 20) + 2 * (s - 25) + 2 * (s - 22)
  {
    hide RowTotal;
    Band(r, s, 0, 4, s - 20, 4 * (s - 20));
    Band(r, s, 4, 6, s - 25, 2 * (s - 25));
    Band(r, s, 6, 7, 0, 0);
    Band(r, s, 7, 9, s - 22, 2 * (s - 22));
  }

  lemma LargeMiddle(r: set<Pos>, s: nat, m: nat, upper: nat, lower: nat)
    requires s >= 45 && m == (s - 1) / 2 && LargeRows(r, s, m)
    requires upper == (m - 2 - 9) * (s - 1) && lower == (s - 11 - (m + 3)) * (s - 1)
    ensures AreaFree(r, s, s - 11) == AreaFree(r, s, 9) + upper + 5 * (s - 15) + lower
  {
    hide RowTotal;
    Band(r, s, 9, m - 2, s - 1, upper);
    Band(r, s, m - 2, m + 3, s - 15, 5 * (s - 15));
    Band(r, s, m + 3, s - 11, s - 1, lower);
  }

  lemma LargeBottom(r: set<Pos>, s: nat, m: nat)
    requires s >= 45 && m == (s - 1) / 2 && LargeRows(r, s, m)
    ensures AreaFree(r, s, s) == AreaFree(r, s, s - 11) + 2 * (s - 7) + (s - 17) + 4 * (s - 19) + 4 * (s - 9)
  {
    hide RowTotal;
    Band(r, s, s - 11, s - 9, s - 7, 2 * (s - 7));
    Band(r, s, s - 9, s - 8, s - 17, s - 17);
    Band(r, s, s - 8, s - 4, s - 19, 4 * (s - 19));
    Band(r, s, s - 4, s, s - 9, 4 * (s - 9));
  }

  lemma LargeArea(version: Version, r: set<Pos>, s: nat, m: nat)
    requires version >= 7 && s == Size(version) && m == (s - 1) / 2 && MatchesRegion(version, r)
    ensures AreaFree(r, s, s)
         == 4 * (s - 20) + 2 * (s - 25) + 2 * (s - 22) + (m - 11) * (s - 1) + 5 * (s - 15) + (s - 14 - m) * (s - 1)
            + 2 * (s - 7) + (s - 17) + 4 * (s - 19) + 4 * (s - 9)
  {
    hide RowTotal, MatchesRegion, AreaFree;
    forall y: nat | y < s
      ensures RowTotal(r, s, y) == LargeRowCount(s, m, y)
    {
      if y <= 8 {
        LargeTopRow(version, r, s, m, y);
      } else if y < s - 11 {
        LargeMiddleRow(version, r, s, m, y);
      } else {
        LargeBottomRow(version, r, s, m, y);
      }
    }
    LargeTop(r, s, m);
    LargeMiddle(r, s, m, (m - 2 - 9) * (s - 1), (s - 11 - (m + 3)) * (s - 1));
    LargeBottom(r, s, m);
  }

  lemma AreaIsRoom(version: Version, r: set<Pos>)
    requires IsReservedSet(version, r)
    ensures AreaFree(r, Size(version), Size(version)) == 8 * TotalCodewords(version) + RemainderBits(version)
  {
    var s := Size(version);
    assert MatchesRegion(version, r) by {
      forall p | InGrid(s, p)
        ensures p in r <==> Region(version, p)
      {
        RegionIsReserved(version, p);
      }
    }
    hide MatchesRegion, IsReservedSet;
    if version == 1 {
      SmallArea(r);
    } else if version <= 6 {
      MediumArea(version, r, s);
      match version
      case 2 =>
      case 3 =>
      case 4 =>
      case 5 =>
      case _ =>
    } else {
      LargeArea(version, r, s, (s - 1) / 2);
      match version
      case 7 =>
      case 8 =>
      case 9 =>
      case _ =>
    }
  }

  // ----- From rows to the walk -----

  /** The free modules among the first `n` of the walk. */
  ghost function WalkSet(size: nat, r: set<Pos>, n: nat): (s: set<Pos>)
    requires size > 0
  {
    if n == 0 then {} else if WalkAt(size, n - 1) in r then WalkSet(size, r, n - 1)
        else WalkSet(size, r, n - 1) + {WalkAt(size, n - 1)}
  }

  lemma {:induction false} WalkSetMembers(size: nat, r: set<Pos>, n: nat)
    requires GoodSize(size) && n <= WalkLength(size)
    ensures forall p :: p in WalkSet(size, r, n) <==> DrawsTo(size, r, p, n)
  {
    hide WalkAt, WalkIndex, WalkLength;
    if n == 0 {
      forall p | InGrid(size, p) && p.x != 6
        ensures WalkIndex(size, p) >= 0
      {
        WalkIsBijection(size, 0, p);
      }
    } else {
      WalkSetMembers(size, r, n - 1);
      WalkIsBijection(size, n - 1, Pos(0, 0));
      forall p
        ensures p in WalkSet(size, r, n) <==> DrawsTo(size, r, p, n)
      {
        WalkIsBijection(size, n - 1, p);
      }
    }
  }

  lemma WalkSetIsNew(size: nat, r: set<Pos>, n: nat)
    requires GoodSize(size) && n < WalkLength(size)
    ensures WalkAt(size, n) !in WalkSet(size, r, n)
  {
    hide WalkAt, WalkIndex, WalkLength, WalkSet;
    WalkSetMembers(size, r, n);
    WalkIsBijection(size, n, Pos(0, 0));
  }

  lemma {:induction false} WalkSetSize(size: nat, r: set<Pos>, n: nat)
    requires GoodSize(size) && n <= WalkLength(size)
    ensures |WalkSet(size, r, n)| == FreeCount(size, r, n)
  {
    hide WalkAt, WalkLength;
    if n > 0 {
      WalkSetSize(size, r, n - 1);
      WalkSetIsNew(size, r, n - 1);
    }
  }

  /** The free modules of the first `y` rows and the first `x` columns of row `y`. */
  ghost function AreaSet(size: nat, r: set<Pos>, y: nat, x: nat): set<Pos>
    requires x <= size
    decreases y, x
  {
    if x > 0 then
      (if Pos(x - 1, y) in r then AreaSet(size, r, y, x - 1) else AreaSet(size, r, y, x - 1) + {Pos(x - 1, y)})
    else if y > 0 then AreaSet(size, r, y - 1, size)
    else {}
  }

  lemma {:induction false} AreaSetMembers(size: nat, r: set<Pos>, y: nat, x: nat)
    requires x <= size
    ensures forall p :: p in AreaSet(size, r, y, x) <==>
              p !in r && 0 <= p.x < size && 0 <= p.y && (p.y < y || (p.y == y && p.x < x))
    decreases y, x
  {
    if x > 0 {
      AreaSetMembers(size, r, y, x - 1);
    } else if y > 0 {
      AreaSetMembers(size, r, y - 1, size);
    }
  }

  lemma {:induction false} AreaSetSize(size: nat, r: set<Pos>, y: nat, x: nat)
    requires x <= size
    ensures |AreaSet(size, r, y, x)| == AreaFree(r, size, y) + RowFree(r, y, x)
    decreases y, x
  {
    if x > 0 {
      AreaSetSize(size, r, y, x - 1);
      AreaSetIsNew(size, r, y, x - 1);
    } else if y > 0 {
      AreaSetSize(size, r, y - 1, size);
    }
  }

  lemma AreaSetIsNew(size: nat, r: set<Pos>, y: nat, x: nat)
    requires x <= size
    ensures Pos(x, y) !in AreaSet(size, r, y, x)
  {
    hide AreaSet;
    AreaSetMembers(size, r, y, x);
  }

  /** Each version has room for exactly its codewords, and 0 or 7 remainder bits. */
  lemma SymbolHasRoom(version: Version, r: set<Pos>)
    requires IsReservedSet(version, r)
    ensures GoodSize(Size(version))
    ensures FreeCount(Size(version), r, WalkLength(Size(version))) == 8 * TotalCodewords(version)
            + RemainderBits(version)
  {
    var size := Size(version);
    forall p | InGrid(size, p) && p.x == 6
      ensures p in r
    {}
    hide WalkIndex, WalkLength, WalkAt, Reserved, IsReservedSet, TotalCodewords, WalkSet, AreaSet, AreaFree, RowFree;
    AreaIsRoom(version, r);
    WalkSetSize(size, r, WalkLength(size));
    AreaSetSize(size, r, size, 0);
    WalkSetIsAreaSet(size, r);
  }

  /** The walk meets every free module of the grid, if column 6 has none. */
  lemma WalkSetIsAreaSet(size: nat, r: set<Pos>)
    requires GoodSize(size) && forall p :: InGrid(size, p) && p.x == 6 ==> p in r
    ensures WalkSet(size, r, WalkLength(size)) == AreaSet(size, r, size, 0)
  {
    hide WalkIndex, WalkLength, WalkAt, WalkSet, AreaSet;
    WalkSetMembers(size, r, WalkLength(size));
    AreaSetMembers(size, r, size, 0);
    forall p
      ensures p in WalkSet(size, r, WalkLength(size)) <==> p in AreaSet(size, r, size, 0)
    {
      WalkIsBijection(size, 0, p);
    }
  }
}
