/**
 Function patterns (ISO/IEC 18004 sections 6.3, 7.9 and 7.10): which modules
 they reserve, what they look like, and the loops that draw them.
 */
module QrPatterns {
  import opened BitString
  import opened QrTables
  import opened QrWalk
  import opened QrCanvas

  function Size(version: Version): nat { 4 * version + 17 }

  function Abs(n: int): nat { if n < 0 then -n else n }

  /** Chebyshev distance: which ring around `centre` the module lies on. */
  function Ring(p: Pos, centre: Pos): nat {
    var dx, dy := Abs(p.x - centre.x), Abs(p.y - centre.y);
    if dx < dy then dy else dx
  }

  /** Alignment-pattern coordinates, ISO/IEC 18004 annex E. */
  function Coordinates(version: Version): (s: seq<nat>)
    ensures |s| == if version == 1 then 0 else if version < 7 then 2 else 3
  {
    match version
    case 1 => []
    case 2 => [6, 18]
    case 3 => [6, 22]
    case 4 => [6, 26]
    case 5 => [6, 30]
    case 6 => [6, 34]
    case 7 => [6, 22, 38]
    case 8 => [6, 24, 42]
    case 9 => [6, 26, 46]
    case _ => [6, 28, 50]
  }

  /** The three pairings of coordinates that a finder pattern occupies. */
  predicate Corner(i: nat, j: nat, last: int) {
    (i == 0 && j == 0) || (i == 0 && j == last) || (i == last && j == 0)
  }

  // ----- The reserved regions -----

  predicate Timing(p: Pos) { p.x == 6 || p.y == 6 }

  function FinderCentres(size: nat): seq<Pos> {
    [Pos(3, 3), Pos(size - 4, 3), Pos(3, size - 4)]
  }

  predicate Finder(size: nat, p: Pos) {
    Ring(p, Pos(3, 3)) <= 4 || Ring(p, Pos(size - 4, 3)) <= 4 || Ring(p, Pos(3, size - 4)) <= 4
  }

  ghost predicate IsAlignmentCentre(version: Version, c: Pos) {
    var s := Coordinates(version);
    exists i, j :: 0 <= i < |s| && 0 <= j < |s| && !Corner(i, j, |s| - 1) && c == Pos(s[i], s[j])
  }

  ghost predicate Alignment(version: Version, p: Pos) {
    exists c :: IsAlignmentCentre(version, c) && Ring(p, c) <= 2
  }

  predicate VersionZone(version: Version, p: Pos) {
    var size := Size(version);
    version >= 7 && ((size - 11 <= p.x <= size - 9 && 0 <= p.y <= 5) || (size - 11 <= p.y <= size - 9 && 0 <= p.x <= 5))
  }

  /** The modules of the two copies of the format information, and the one dark module beside them. */
  predicate FormatZone(size: nat, p: Pos) {
    || (p.x == 8 && (0 <= p.y <= 5 || p.y == 7 || p.y == 8 || size - 8 <= p.y < size))
    || (p.y == 8 && (0 <= p.x <= 5 || p.x == 7 || size - 8 <= p.x < size))
  }

  ghost predicate Reserved(version: Version, p: Pos) {
    var size := Size(version);
    InGrid(size, p) &&
    (Timing(p) || Finder(size, p) || Alignment(version, p) || VersionZone(version, p) || FormatZone(size, p))
  }

  // ----- Version and format information -----

  /** Exclusive or of two bit strings of one length. */
  function XorBits(a: seq<bool>, b: seq<bool>): (c: seq<bool>)
    requires |a| == |b|
    ensures |c| == |a|
  {
    seq(|a|, i requires 0 <= i < |a| => a[i] != b[i])
  }

  lemma XorTwice(a: seq<bool>, b: seq<bool>)
    requires |a| == |b|
    ensures XorBits(XorBits(a, b), b) == a
  {}

  /** One round of a shift register with feedback `taps`. */
  function ShiftRound(register: seq<bool>, taps: seq<bool>): (next: seq<bool>)
    requires |register| == |taps| > 0
    ensures |next| == |taps|
  {
    var shifted := register[1..] + [false];
    if register[0] then XorBits(shifted, taps) else shifted
  }

  /** The check bits of a cyclic code: `rounds` rounds of the shift register. */
  function CheckBits(register: seq<bool>, taps: seq<bool>, rounds: nat): (check: seq<bool>)
    requires |register| == |taps| > 0
    ensures |check| == |taps|
    decreases rounds
  {
    if rounds == 0 then register else CheckBits(ShiftRound(register, taps), taps, rounds - 1)
  }

  /** The 18 bits of version information: BCH(18,6) with generator 0x1F25. */
  function VersionInfo(version: Version): (s: seq<bool>)
    ensures |s| == 18
  {
    Bits(version, 6) + CheckBits(Bits(version, 12), Bits(0xF25, 12), 12)
  }

  function FormatLevel(ecc: Ecc): nat {
    match ecc
    case Low => 1
    case Medium => 0
    case Quartile => 3
    case High => 2
  }

  /** Five bits of data and ten check bits: BCH(15,5) with generator 0x537. */
  function FormatWord(data: nat): (s: seq<bool>)
    ensures |s| == 15
  {
    Bits(data, 5) + CheckBits(Bits(data, 10), Bits(0x137, 10), 10)
  }

  function FormatMask(): (s: seq<bool>)
    ensures |s| == 15
  {
    Bits(0x5412, 15)
  }

  /** The 15 bits of format information: level and mask, protected, then masked with 0x5412. */
  function FormatInfo(ecc: Ecc, mask: nat): (s: seq<bool>)
    ensures |s| == 15
  {
    XorBits(FormatWord(FormatLevel(ecc) * 8 + mask), FormatMask())
  }

  /** Bit `i` counted from the least significant end. */
  predicate LowBit(s: seq<bool>, i: nat)
    requires i < |s|
  {
    s[|s| - 1 - i]
  }

  // ----- What the patterns look like -----

  /** Which bit of the version information a module of its zone shows. */
  function VersionBit(version: Version, p: Pos): nat {
    var size := Size(version);
    if p.y <= 5 then 3 * Abs(p.y) + Abs(p.x - (size - 11)) else 3 * Abs(p.x) + Abs(p.y - (size - 11))
  }

  predicate FinderDark(size: nat, p: Pos) {
    var ring := if Ring(p, Pos(3, size - 4)) <= 4 then Ring(p, Pos(3, size - 4))
                else if Ring(p, Pos(size - 4, 3)) <= 4 then Ring(p, Pos(size - 4, 3))
                else Ring(p, Pos(3, 3));
    ring != 2 && ring != 4
  }

  predicate TimingDark(p: Pos) {
    if p.x == 6 then p.y % 2 == 0 else p.x % 2 == 0
  }

  /** The blank symbol: later patterns are drawn over earlier ones. */
  ghost predicate PatternDark(version: Version, p: Pos) {
    var size := Size(version);
    Reserved(version, p) &&
    if FormatZone(size, p) then p == Pos(8, size - 8)
    else if VersionZone(version, p) then VersionBit(version, p) < 18
        && LowBit(VersionInfo(version), VersionBit(version, p))
    else if Alignment(version, p) then exists c :: IsAlignmentCentre(version, c) && Ring(p, c) in {0, 2}
    else if Finder(size, p) then FinderDark(size, p)
    else TimingDark(p)
  }

  // ----- Drawing -----

  predicate InSquare(size: nat, centre: Pos, radius: nat, p: Pos) {
    InGrid(size, p) && Ring(p, centre) <= radius
  }

  lemma SquareSpan(size: nat, centre: Pos, radius: nat)
    ensures forall p :: InSquare(size, centre, radius, p) ==> InGrid(size, p)
    ensures forall p :: InSquare(size, centre, radius, p) ==> centre.x - radius <= p.x <= centre.x + radius
    ensures forall p :: InSquare(size, centre, radius, p) ==> centre.y - radius <= p.y <= centre.y + radius
  {}

  lemma SquareModule(size: nat, centre: Pos, radius: nat, p: Pos)
    requires InGrid(size, p)
    ensures InSquare(size, centre, radius, p) <==>
              centre.x - radius <= p.x <= centre.x + radius && centre.y - radius <= p.y <= centre.y + radius
  {}

  /** One row of a square of rings. */
  method StampRow(canvas: Canvas, centre: Pos, radius: nat, light: set<nat>, y: int)
    requires centre.y - radius <= y <= centre.y + radius
    modifies canvas
    ensures forall p :: p in canvas.reserved <==>
              p in old(canvas.reserved) || (InSquare(canvas.size, centre, radius, p) && p.y == y)
    ensures forall p :: p in canvas.dark <==>
              if InSquare(canvas.size, centre, radius, p) && p.y == y then Ring(p, centre) !in light
                  else p in old(canvas.dark)
  {
    SquareSpan(canvas.size, centre, radius);
    hide Ring, InSquare;
    for dx: int := 0 - radius to radius + 1
      invariant forall p :: p in canvas.reserved <==>
                  p in old(canvas.reserved) || (InSquare(canvas.size, centre, radius, p) && p.y == y
                      && p.x < centre.x + dx)
      invariant forall p :: p in canvas.dark <==>
                  if InSquare(canvas.size, centre, radius, p) && p.y == y && p.x < centre.x + dx
                  then Ring(p, centre) !in light else p in old(canvas.dark)
    {
      var x := centre.x + dx;
      if 0 <= x < canvas.size && 0 <= y < canvas.size {
        SquareModule(canvas.size, centre, radius, Pos(x, y));
        canvas.SetFunction(x, y, Ring(Pos(x, y), centre) !in light);
      }
    }
  }

  /** A square of rings around a centre, clipped to the grid: light on the rings in `light`. */
  method StampSquare(canvas: Canvas, centre: Pos, radius: nat, light: set<nat>)
    modifies canvas
    ensures forall p :: p in canvas.reserved <==> p in old(canvas.reserved) || InSquare(canvas.size, centre, radius, p)
    ensures forall p :: p in canvas.dark <==>
              if InSquare(canvas.size, centre, radius, p) then Ring(p, centre) !in light else p in old(canvas.dark)
  {
    SquareSpan(canvas.size, centre, radius);
    hide Ring, InSquare;
    for dy: int := 0 - radius to radius + 1
      invariant forall p :: p in canvas.reserved <==>
                  p in old(canvas.reserved) || (InSquare(canvas.size, centre, radius, p) && p.y < centre.y + dy)
      invariant forall p :: p in canvas.dark <==>
                  if InSquare(canvas.size, centre, radius, p) && p.y < centre.y + dy
                  then Ring(p, centre) !in light else p in old(canvas.dark)
    {
      StampRow(canvas, centre, radius, light, centre.y + dy);
    }
  }

  /** What one drawing method does: `zone` becomes reserved with the given colours; nothing else changes. */
  ghost predicate Drew(size: nat, reserved: set<Pos>, dark: set<Pos>, reserved': set<Pos>, dark': set<Pos>,
                       zone: Pos -> bool, colour: Pos -> bool)
  {
    && (forall p :: p in reserved' <==> p in reserved || (InGrid(size, p) && zone(p)))
    && (forall p :: p in dark' <==> if InGrid(size, p) && zone(p) then colour(p) else p in dark)
  }

  method DrawTiming(canvas: Canvas)
    requires canvas.size > 6
    modifies canvas
    ensures Drew(canvas.size, old(canvas.reserved), old(canvas.dark), canvas.reserved, canvas.dark, Timing, TimingDark)
  {
    for i := 0 to canvas.size
      invariant forall p :: p in canvas.reserved <==>
                  p in old(canvas.reserved) || (InGrid(canvas.size, p)
                      && ((p.y == 6 && p.x < i) || (p.x == 6 && p.y < i)))
      invariant forall p :: p in canvas.dark <==>
                  if InGrid(canvas.size, p) && ((p.y == 6 && p.x < i) || (p.x == 6 && p.y < i)) then TimingDark(p)
                  else p in old(canvas.dark)
    {
      canvas.SetFunction(i, 6, i % 2 == 0);
      canvas.SetFunction(6, i, i % 2 == 0);
    }
  }

  /** The three finder patterns with their separators, ring by ring. */
  method DrawFinders(canvas: Canvas)
    requires canvas.size >= 21
    modifies canvas
    ensures Drew(canvas.size, old(canvas.reserved), old(canvas.dark), canvas.reserved, canvas.dark,
                 p => Finder(canvas.size, p), p => FinderDark(canvas.size, p))
  {
    var centres := FinderCentres(canvas.size);
    StampSquare(canvas, centres[0], 4, {2, 4});
    StampSquare(canvas, centres[1], 4, {2, 4});
    StampSquare(canvas, centres[2], 4, {2, 4});
  }

  ghost predicate Stamped(done: set<Pos>, p: Pos) {
    exists c :: c in done && Ring(p, c) <= 2
  }

  ghost predicate StampedDark(done: set<Pos>, p: Pos) {
    exists c :: c in done && Ring(p, c) in {0, 2}
  }

  /** Alignment patterns do not touch each other. */
  lemma CentresAreApart(version: Version, a: Pos, b: Pos, p: Pos)
    requires IsAlignmentCentre(version, a) && IsAlignmentCentre(version, b)
    requires Ring(p, a) <= 2 && Ring(p, b) <= 2
    ensures a == b
  {
    var s := Coordinates(version);
    var i, j :| 0 <= i < |s| && 0 <= j < |s| && a == Pos(s[i], s[j]);
    var k, l :| 0 <= k < |s| && 0 <= l < |s| && b == Pos(s[k], s[l]);
    CoordinatesAreApart(version, i, k);
    CoordinatesAreApart(version, j, l);
  }

  lemma CoordinatesAreApart(version: Version, i: nat, j: nat)
    requires i < |Coordinates(version)| && j < |Coordinates(version)|
    ensures i != j ==> Abs(Coordinates(version)[i] as int - Coordinates(version)[j] as int) >= 12
  {}

  method DrawAlignments(canvas: Canvas, version: Version)
    requires canvas.size == Size(version)
    modifies canvas
    ensures Drew(canvas.size, old(canvas.reserved), old(canvas.dark), canvas.reserved, canvas.dark,
                 p => Alignment(version, p),
                 p => exists c :: IsAlignmentCentre(version, c) && Ring(p, c) in {0, 2})
  {
    hide Coordinates;
    var s := Coordinates(version);
    var last := if |s| == 0 then 0 else |s| - 1;
    ghost var done: set<Pos> := {};
    for i := 0 to |s|
      invariant forall c :: c in done <==>
                  exists k, l :: 0 <= k < i && 0 <= l < |s| && !Corner(k, l, |s| - 1) && c == Pos(s[k], s[l])
      invariant Drew(canvas.size, old(canvas.reserved), old(canvas.dark), canvas.reserved, canvas.dark,
                     p => Stamped(done, p), p => StampedDark(done, p))
    {
      for j := 0 to |s|
        invariant forall c :: c in done <==>
                    exists k, l :: 0 <= k <= i && 0 <= l < |s| && (k < i || l < j) && !Corner(k, l, |s| - 1)
                        && c == Pos(s[k], s[l])
        invariant Drew(canvas.size, old(canvas.reserved), old(canvas.dark), canvas.reserved, canvas.dark,
                       p => Stamped(done, p), p => StampedDark(done, p))
      {
        if !Corner(i, j, last) {
          var c := Pos(s[i], s[j]);
          ghost var r, d := canvas.reserved, canvas.dark;
          StampSquare(canvas, c, 2, {1});
          StampOneMore(canvas.size, version, old(canvas.reserved), old(canvas.dark), r, d, canvas.reserved, canvas.dark,
              done, c);
          done := done + {c};
        }
      }
    }
    forall p
      ensures Stamped(done, p) <==> Alignment(version, p)
      ensures StampedDark(done, p) <==> exists c :: IsAlignmentCentre(version, c) && Ring(p, c) in {0, 2}
    {}
  }

  lemma StampOneMore(size: nat, version: Version, r0: set<Pos>, d0: set<Pos>, r1: set<Pos>, d1: set<Pos>,
                     r2: set<Pos>, d2: set<Pos>, done: set<Pos>, c: Pos)
    requires forall e :: e in done ==> IsAlignmentCentre(version, e)
    requires IsAlignmentCentre(version, c)
    requires Drew(size, r0, d0, r1, d1, p => Stamped(done, p), p => StampedDark(done, p))
    requires forall p :: p in r2 <==> p in r1 || InSquare(size, c, 2, p)
    requires forall p :: p in d2 <==> if InSquare(size, c, 2, p) then Ring(p, c) !in {1} else p in d1
    ensures Drew(size, r0, d0, r2, d2, p => Stamped(done + {c}, p), p => StampedDark(done + {c}, p))
  {
    forall p
      ensures Stamped(done + {c}, p) <==> Stamped(done, p) || Ring(p, c) <= 2
      ensures Ring(p, c) <= 2 ==> (StampedDark(done + {c}, p) <==> Ring(p, c) != 1)
      ensures Ring(p, c) > 2 ==> (StampedDark(done + {c}, p) <==> StampedDark(done, p))
    {
      assert c in done + {c};
      forall e | e in done && Ring(p, e) <= 2 && Ring(p, c) <= 2
        ensures e == c
      {
        CentresAreApart(version, e, c, p);
      }
    }
  }

  /** The two modules that show bit `i` of the version information. */
  lemma VersionModules(version: Version, i: nat, p: Pos)
    requires version >= 7 && i < 18
    ensures var a, b := Size(version) - 11 + i % 3, i / 3;
            VersionZone(version, p) && VersionBit(version, p) == i <==> p == Pos(a, b) || p == Pos(b, a)
  {
    assert 3 * (i / 3) + i % 3 == i;
  }

  /** The two transposed blocks of version information, from version 7 on. */
  method DrawVersionInfo(canvas: Canvas, version: Version)
    requires canvas.size == Size(version)
    modifies canvas
    ensures Drew(canvas.size, old(canvas.reserved), old(canvas.dark), canvas.reserved, canvas.dark,
                 p => VersionZone(version, p),
                 p => VersionBit(version, p) < 18 && LowBit(VersionInfo(version), VersionBit(version, p)))
  {
    VersionZoneInGrid(version);
    hide VersionInfo, VersionBit, VersionZone;
    if version >= 7 {
      var size, bits := canvas.size, VersionInfo(version);
      for i := 0 to 18
        invariant forall p :: p in canvas.reserved <==>
                    p in old(canvas.reserved) || (VersionZone(version, p) && VersionBit(version, p) < i)
        invariant forall p :: p in canvas.dark <==>
                    if VersionZone(version, p) && VersionBit(version, p) < i then LowBit(bits, VersionBit(version, p))
                    else p in old(canvas.dark)
      {
        var dark := LowBit(bits, i);
        var a := size - 11 + i % 3;
        var b := i / 3;
        canvas.SetFunction(a, b, dark);
        canvas.SetFunction(b, a, dark);
        forall p { VersionModules(version, i, p); }
      }
    }
  }

  lemma VersionZoneInGrid(version: Version)
    ensures forall p :: VersionZone(version, p) ==>
            InGrid(Size(version), p) && VersionBit(version, p) < 18 && version >= 7
  {}

  /** Light function modules down one column. */
  method ReserveColumn(canvas: Canvas, x: nat, from: nat, to: nat)
    requires from <= to
    modifies canvas
    ensures forall p :: p in canvas.reserved <==> p in old(canvas.reserved) || (p.x == x && from <= p.y < to)
    ensures forall p :: p in canvas.dark <==> p in old(canvas.dark) && !(p.x == x && from <= p.y < to)
  {
    for y := from to to
      invariant forall p :: p in canvas.reserved <==> p in old(canvas.reserved) || (p.x == x && from <= p.y < y)
      invariant forall p :: p in canvas.dark <==> p in old(canvas.dark) && !(p.x == x && from <= p.y < y)
    {
      canvas.SetFunction(x, y, false);
    }
  }

  /** Light function modules along one row. */
  method ReserveRow(canvas: Canvas, y: nat, from: nat, to: nat)
    requires from <= to
    modifies canvas
    ensures forall p :: p in canvas.reserved <==> p in old(canvas.reserved) || (p.y == y && from <= p.x < to)
    ensures forall p :: p in canvas.dark <==> p in old(canvas.dark) && !(p.y == y && from <= p.x < to)
  {
    for x := from to to
      invariant forall p :: p in canvas.reserved <==> p in old(canvas.reserved) || (p.y == y && from <= p.x < x)
      invariant forall p :: p in canvas.dark <==> p in old(canvas.dark) && !(p.y == y && from <= p.x < x)
    {
      canvas.SetFunction(x, y, false);
    }
  }

  /** The format modules beside the top-left finder that run down column 8 or touch its corner. */
  predicate CornerFormat(p: Pos) {
    (p.x == 8 && (0 <= p.y <= 5 || p.y == 7 || p.y == 8)) || p == Pos(7, 8)
  }

  method ReserveCornerFormat(canvas: Canvas)
    modifies canvas
    ensures forall p :: p in canvas.reserved <==> p in old(canvas.reserved) || CornerFormat(p)
    ensures forall p :: p in canvas.dark <==> p in old(canvas.dark) && !CornerFormat(p)
  {
    ReserveColumn(canvas, 8, 0, 6);
    canvas.SetFunction(8, 7, false);
    canvas.SetFunction(8, 8, false);
    canvas.SetFunction(7, 8, false);
  }

  /** Reserve the format information, light for now, and the one module beside it that is always dark. */
  method ReserveFormat(canvas: Canvas)
    requires canvas.size >= 21
    modifies canvas
    ensures Drew(canvas.size, old(canvas.reserved), old(canvas.dark), canvas.reserved, canvas.dark,
                 p => FormatZone(canvas.size, p), p => p == Pos(8, canvas.size - 8))
  {
    var size := canvas.size;
    ReserveCornerFormat(canvas);
    ReserveRow(canvas, 8, size - 8, size);
    ReserveColumn(canvas, 8, size - 7, size);
    ReserveRow(canvas, 8, 0, 6);
    canvas.SetFunction(8, size - 8, true);
    forall p
      ensures p in canvas.reserved <==> p in old(canvas.reserved) || FormatZone(size, p)
      ensures p in canvas.dark <==> if FormatZone(size, p) then p == Pos(8, size - 8) else p in old(canvas.dark)
    {}
  }

  /** Draw every function pattern on a blank canvas. */
  method DrawFunctionPatterns(canvas: Canvas, version: Version)
    requires canvas.size == Size(version) && canvas.dark == {} && canvas.reserved == {}
    modifies canvas
    ensures forall p :: p in canvas.reserved <==> Reserved(version, p)
    ensures forall p :: p in canvas.dark <==> PatternDark(version, p)
  {
    hide Alignment, VersionZone, Finder, FormatZone, VersionBit, VersionInfo, LowBit, IsAlignmentCentre, FinderDark,
        TimingDark, Timing, Ring;
    DrawTiming(canvas);
    DrawFinders(canvas);
    DrawAlignments(canvas, version);
    DrawVersionInfo(canvas, version);
    ReserveFormat(canvas);
  }

  // ----- Format information -----

  /** Where bit `i` of the first copy of the format information goes. */
  function FirstCopy(i: nat): Pos
    requires i < 15
  {
    if i <= 5 then Pos(8, i)
    else if i == 6 then Pos(8, 7)
    else if i == 7 then Pos(8, 8)
    else if i == 8 then Pos(7, 8)
    else Pos(14 - i, 8)
  }

  /** Where bit `i` of the second copy goes. */
  function SecondCopy(size: nat, i: nat): Pos
    requires i < 15
  {
    if i < 8 then Pos(size - 1 - i, 8) else Pos(8, size - 15 + i)
  }

  /** Only format modules were drawn. */
  ghost predicate OnlyFormat(size: nat, reserved: set<Pos>, dark: set<Pos>, reserved': set<Pos>, dark': set<Pos>) {
    && (forall p :: !FormatZone(size, p) || p == Pos(8, size - 8) ==> (p in dark' <==> p in dark))
    && (forall p :: p in reserved' ==> p in reserved || FormatZone(size, p))
    && reserved <= reserved'
  }

  ghost predicate FirstCopyShows(dark: set<Pos>, bits: seq<bool>, n: nat)
    requires |bits| == 15 && n <= 15
  {
    forall i :: 0 <= i < n ==> (FirstCopy(i) in dark <==> LowBit(bits, i))
  }

  ghost predicate SecondCopyShows(size: nat, dark: set<Pos>, bits: seq<bool>, n: nat)
    requires |bits| == 15 && n <= 15
  {
    forall i :: 0 <= i < n ==> (SecondCopy(size, i) in dark <==> LowBit(bits, i))
  }

  /** The copy wrapped around the top-left finder pattern. */
  method DrawFirstCopy(canvas: Canvas, bits: seq<bool>)
    requires canvas.size >= 21 && |bits| == 15
    modifies canvas
    ensures FirstCopyShows(canvas.dark, bits, 15)
    ensures OnlyFormat(canvas.size, old(canvas.reserved), old(canvas.dark), canvas.reserved, canvas.dark)
  {
    for i := 0 to 6
      invariant FirstCopyShows(canvas.dark, bits, i)
      invariant OnlyFormat(canvas.size, old(canvas.reserved), old(canvas.dark), canvas.reserved, canvas.dark)
    {
      canvas.SetFunction(8, i, LowBit(bits, i));
    }
    canvas.SetFunction(8, 7, LowBit(bits, 6));
    canvas.SetFunction(8, 8, LowBit(bits, 7));
    canvas.SetFunction(7, 8, LowBit(bits, 8));
    for i := 9 to 15
      invariant FirstCopyShows(canvas.dark, bits, i)
      invariant OnlyFormat(canvas.size, old(canvas.reserved), old(canvas.dark), canvas.reserved, canvas.dark)
    {
      canvas.SetFunction(14 - i, 8, LowBit(bits, i));
    }
  }

  /** The copy split between the other two finder patterns. */
  method DrawSecondCopy(canvas: Canvas, bits: seq<bool>)
    requires canvas.size >= 21 && |bits| == 15
    modifies canvas
    ensures SecondCopyShows(canvas.size, canvas.dark, bits, 15)
    ensures FirstCopyShows(old(canvas.dark), bits, 15) ==> FirstCopyShows(canvas.dark, bits, 15)
    ensures OnlyFormat(canvas.size, old(canvas.reserved), old(canvas.dark), canvas.reserved, canvas.dark)
  {
    var size := canvas.size;
    for i := 0 to 8
      invariant SecondCopyShows(size, canvas.dark, bits, i)
      invariant FirstCopyShows(old(canvas.dark), bits, 15) ==> FirstCopyShows(canvas.dark, bits, 15)
      invariant OnlyFormat(size, old(canvas.reserved), old(canvas.dark), canvas.reserved, canvas.dark)
    {
      canvas.SetFunction(size - 1 - i, 8, LowBit(bits, i));
    }
    for i := 8 to 15
      invariant SecondCopyShows(size, canvas.dark, bits, i)
      invariant FirstCopyShows(old(canvas.dark), bits, 15) ==> FirstCopyShows(canvas.dark, bits, 15)
      invariant OnlyFormat(size, old(canvas.reserved), old(canvas.dark), canvas.reserved, canvas.dark)
    {
      canvas.SetFunction(8, size - 15 + i, LowBit(bits, i));
    }
  }

  /** Format drawing writes only modules reserved for it, and both copies spell the format. */
  method DrawFormatInfo(canvas: Canvas, ecc: Ecc, mask: nat)
    requires canvas.size >= 21 && mask < 8
    modifies canvas
    ensures FirstCopyShows(canvas.dark, FormatInfo(ecc, mask), 15)
    ensures SecondCopyShows(canvas.size, canvas.dark, FormatInfo(ecc, mask), 15)
    ensures OnlyFormat(canvas.size, old(canvas.reserved), old(canvas.dark), canvas.reserved, canvas.dark)
  {
    hide FormatInfo, FirstCopyShows, SecondCopyShows;
    var bits := FormatInfo(ecc, mask);
    DrawFirstCopy(canvas, bits);
    DrawSecondCopy(canvas, bits);
  }
}
