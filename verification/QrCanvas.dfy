/**
 The grid under construction: which modules are dark, which belong to function
 patterns, and the two passes over the data modules (ISO/IEC 18004 sections
 7.7.3 and 7.8).  A grid of booleans is the set of positions where it is true.
 */
module QrCanvas {
  import opened Basics
  import opened BitString
  import opened ByteString
  import opened QrTables
  import opened QrBitStream
  import opened QrWalk

  /** Bit `i` of the codewords; the remainder bits past their end are zero. */
  predicate CodewordBit(codewords: seq<byte>, i: nat) {
    i / 8 < |codewords| && codewords[i / 8] / Pow2(7 - i % 8) % 2 == 1
  }

  lemma CodewordBitIsByteBit(codewords: seq<byte>, i: nat)
    ensures CodewordBit(codewords, i) <==> i < 8 * |codewords| && ByteBits(codewords)[i]
  {
    if i / 8 < |codewords| {
      BitByShift(codewords[i / 8], 8, i % 8);
    }
  }

  /** How many of the first `n` modules of the walk are free to hold data. */
  ghost function FreeCount(size: nat, reserved: set<Pos>, n: nat): nat
    requires size > 0
  {
    if n == 0 then 0
    else FreeCount(size, reserved, n - 1) + (if WalkAt(size, n - 1) in reserved then 0 else 1)
  }

  /** The eight data masks of ISO/IEC 18004 table 10. */
  predicate MaskCondition(mask: nat, x: nat, y: nat)
    requires mask < 8
  {
    match mask
    case 0 => (x + y) % 2 == 0
    case 1 => y % 2 == 0
    case 2 => x % 3 == 0
    case 3 => (x + y) % 3 == 0
    case 4 => (y / 2 + x / 3) % 2 == 0
    case 5 => (x * y) % 2 + (x * y) % 3 == 0
    case 6 => ((x * y) % 2 + (x * y) % 3) % 2 == 0
    case _ => ((x + y) % 2 + (x * y) % 3) % 2 == 0
  }

  /** Whether masking flips module `p`. */
  predicate Flips(size: nat, reserved: set<Pos>, mask: nat, p: Pos)
    requires mask < 8
  {
    InGrid(size, p) && p !in reserved && MaskCondition(mask, p.x, p.y)
  }

  /** `after` is `before` with the data modules that `mask` selects flipped. */
  ghost predicate Masked(size: nat, reserved: set<Pos>, mask: nat, before: set<Pos>, after: set<Pos>)
    requires mask < 8
  {
    forall p :: p in after <==> ((p in before) != Flips(size, reserved, mask, p))
  }

  /** Masking is an involution: applying the same mask twice restores every module. */
  lemma MaskingIsInvolution(size: nat, reserved: set<Pos>, mask: nat, a: set<Pos>, b: set<Pos>, c: set<Pos>)
    requires mask < 8
    requires Masked(size, reserved, mask, a, b) && Masked(size, reserved, mask, b, c)
    ensures c == a
  {
    forall p
      ensures p in c <==> p in a
    {
      assert p in b <==> ((p in a) != Flips(size, reserved, mask, p));
    }
  }

  /** The first `n` modules of the walk carry the codeword bits in order; all else is as `before`. */
  ghost predicate DrawnTo(size: nat, reserved: set<Pos>, codewords: seq<byte>, before: set<Pos>, dark: set<Pos>, n: nat)
    requires size > 0
  {
    && (forall m :: 0 <= m < n && WalkAt(size, m) !in reserved ==>
          (WalkAt(size, m) in dark <==> CodewordBit(codewords, FreeCount(size, reserved, m))))
    && (forall p :: DrawsTo(size, reserved, p, n) || (p in dark <==> p in before))
  }

  /** Whether drawing the first `n` modules of the walk writes `p`. */
  ghost predicate DrawsTo(size: nat, reserved: set<Pos>, p: Pos, n: nat) {
    InGrid(size, p) && p.x != 6 && p !in reserved && WalkIndex(size, p) < n
  }

  lemma DrawStep(size: nat, reserved: set<Pos>, codewords: seq<byte>, before: set<Pos>, dark: set<Pos>, n: nat,
      next: set<Pos>)
    requires GoodSize(size) && n < WalkLength(size)
    requires DrawnTo(size, reserved, codewords, before, dark, n)
    requires var p := WalkAt(size, n);
             next == if p in reserved then dark
                     else if CodewordBit(codewords, FreeCount(size, reserved, n)) then dark + {p} else dark - {p}
    ensures DrawnTo(size, reserved, codewords, before, next, n + 1)
  {
    hide WalkAt, WalkIndex, WalkLength, CodewordBit;
    var p := WalkAt(size, n);
    WalkIsBijection(size, n, p);
    forall m | 0 <= m < n + 1 && WalkAt(size, m) !in reserved
      ensures WalkAt(size, m) in next <==> CodewordBit(codewords, FreeCount(size, reserved, m))
    {
      if m < n {
        WalkIsInjective(size, m, n);
      }
    }
  }

  class Canvas {
    const size: nat
    var dark: set<Pos>
    var reserved: set<Pos>

    constructor (size: nat)
      ensures this.size == size && dark == {} && reserved == {}
    {
      this.size := size;
      dark, reserved := {}, {};
    }

    /** A copy, for one mask candidate. */
    constructor Copy(of: Canvas)
      ensures size == of.size && dark == of.dark && reserved == of.reserved
    {
      size := of.size;
      dark, reserved := of.dark, of.reserved;
    }

    method Set(x: nat, y: nat, on: bool)
      modifies this`dark
      ensures dark == if on then old(dark) + {Pos(x, y)} else old(dark) - {Pos(x, y)}
    {
      dark := if on then dark + {Pos(x, y)} else dark - {Pos(x, y)};
    }

    /** Set a module and mark it as part of a function pattern. */
    method SetFunction(x: nat, y: nat, on: bool)
      modifies this
      ensures dark == if on then old(dark) + {Pos(x, y)} else old(dark) - {Pos(x, y)}
      ensures reserved == old(reserved) + {Pos(x, y)}
    {
      dark := if on then dark + {Pos(x, y)} else dark - {Pos(x, y)};
      reserved := reserved + {Pos(x, y)};
    }

    /** One pair of columns of the zig-zag, upward or downward. */
    method DrawPair(codewords: seq<byte>, right: nat, upward: bool, first: nat, ghost k: nat, ghost before: set<Pos>)
      returns (index: nat)
      requires GoodSize(size) && k < (size - 1) / 2 && upward == (k % 2 == 0) && right == Right(size, k)
      requires first == FreeCount(size, reserved, VisitIndex(size, k, 0, 0))
      requires DrawnTo(size, reserved, codewords, before, dark, VisitIndex(size, k, 0, 0))
      modifies this`dark
      ensures index == FreeCount(size, reserved, VisitIndex(size, k, size, 0))
      ensures DrawnTo(size, reserved, codewords, before, dark, VisitIndex(size, k, size, 0))
    {
      hide DrawnTo, CodewordBit, WalkAt, WalkLength, VisitIndex, MaskCondition;
      index := first;
      for step := 0 to size
        invariant index == FreeCount(size, reserved, VisitIndex(size, k, step, 0))
        invariant DrawnTo(size, reserved, codewords, before, dark, VisitIndex(size, k, step, 0))
      {
        var y := if upward then size - 1 - step else step;
        for side := 0 to 2
          invariant index == FreeCount(size, reserved, VisitIndex(size, k, step, side))
          invariant DrawnTo(size, reserved, codewords, before, dark, VisitIndex(size, k, step, side))
        {
          VisitedHere(size, k, step, side);
          var x := right - side;
          ghost var n, was := VisitIndex(size, k, step, side), dark;
          if Pos(x, y) !in reserved {
            Set(x, y, CodewordBit(codewords, index));
            index := index + 1;
          }
          DrawStep(size, reserved, codewords, before, was, n, dark);
        }
        VisitedHere(size, k, step, 0);
      }
    }

    /** Lay the codewords into the free modules along the zig-zag. */
    method DrawCodewords(codewords: seq<byte>)
      requires GoodSize(size)
      modifies this`dark
      ensures DrawnTo(size, reserved, codewords, old(dark), dark, WalkLength(size))
    {
      hide DrawnTo, CodewordBit, WalkAt, WalkLength, VisitIndex, FreeCount;
      var index := 0;
      var upward := true;
      var right := size - 1;
      ghost var k := 0;
      NothingDrawn(size, reserved, codewords, dark);
      while true
        invariant k < (size - 1) / 2 && upward == (k % 2 == 0)
        invariant right == Right(size, k) || (right == 6 == size - 1 - 2 * k)
        invariant index == FreeCount(size, reserved, VisitIndex(size, k, 0, 0))
        invariant DrawnTo(size, reserved, codewords, old(dark), dark, VisitIndex(size, k, 0, 0))
        decreases (size - 1) / 2 - k
      {
        // Column 6 is the vertical timing pattern: the pairs shift left past it.
        if right == 6 {
          right := right - 1;
        }
        index := DrawPair(codewords, right, upward, index, k, old(dark));
        NextPair(size, k);
        upward := !upward;
        if right < 2 {
          break;
        }
        right := right - 2;
        k := k + 1;
      }
    }

    /** Flip the data modules the mask selects. */
    method ApplyMask(mask: nat)
      requires mask < 8
      modifies this`dark
      ensures Masked(size, reserved, mask, old(dark), dark)
    {
      hide MaskCondition;
      for y := 0 to size
        invariant forall p :: p in dark <==> ((p in old(dark)) != (p.y < y && Flips(size, reserved, mask, p)))
      {
        for x := 0 to size
          invariant forall p :: p in dark <==>
                      ((p in old(dark)) != ((p.y < y || (p.y == y && p.x < x)) && Flips(size, reserved, mask, p)))
        {
          if Pos(x, y) !in reserved && MaskCondition(mask, x, y) {
            Set(x, y, Pos(x, y) !in dark);
          }
        }
      }
    }
  }

  lemma NothingDrawn(size: nat, reserved: set<Pos>, codewords: seq<byte>, dark: set<Pos>)
    requires size > 0
    ensures VisitIndex(size, 0, 0, 0) == 0 && FreeCount(size, reserved, 0) == 0
    ensures DrawnTo(size, reserved, codewords, dark, dark, VisitIndex(size, 0, 0, 0))
  {}

  lemma VisitedHere(size: nat, k: nat, step: nat, side: nat)
    requires GoodSize(size) && k < (size - 1) / 2 && step < size && side < 2
    ensures VisitIndex(size, k, step, side) < WalkLength(size)
    ensures WalkAt(size, VisitIndex(size, k, step, side))
         == Pos(Right(size, k) - side, if k % 2 == 0 then size - 1 - step else step)
    ensures Right(size, k) >= 1
    ensures VisitIndex(size, k, step, side + 1) == VisitIndex(size, k, step, side) + 1
    ensures VisitIndex(size, k, step, 2) == VisitIndex(size, k, step + 1, 0)
  {
    VisitBound(size, k, step, side);
    WalkAtVisit(size, k, step, side);
  }

  lemma NextPair(size: nat, k: nat)
    requires GoodSize(size) && k < (size - 1) / 2
    ensures VisitIndex(size, k, size, 0) == VisitIndex(size, k + 1, 0, 0)
    ensures Right(size, k) < 2 <==> k + 1 == (size - 1) / 2
    ensures k + 1 == (size - 1) / 2 ==> VisitIndex(size, k, size, 0) == WalkLength(size)
  {
    assert (k + 1) * (2 * size) == k * (2 * size) + 2 * size;
  }
}
