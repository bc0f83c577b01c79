/**
 The zig-zag of ISO/IEC 18004 section 7.7.3: two modules wide, right to left,
 alternately upward and downward, stepping over column 6.
 */
module QrWalk {
  import opened BitString

  /** A module: column `x`, row `y`. */
  datatype Pos = Pos(x: int, y: int)

  predicate InGrid(size: nat, p: Pos) {
    0 <= p.x < size && 0 <= p.y < size
  }

  /** Sizes the walk is defined for; every symbol has one of these. */
  predicate GoodSize(size: nat) {
    size % 2 == 1 && size >= 9
  }

  /** The right-hand column of the `k`-th pair of columns. */
  function Right(size: nat, k: nat): int {
    var right := size - 1 - 2 * k;
    if right <= 6 then right - 1 else right
  }

  /** The module visited on the given side of the given step of the `k`-th pair. */
  function Visited(size: nat, k: nat, step: nat, side: nat): Pos {
    Pos(Right(size, k) - side, if k % 2 == 0 then size - 1 - step else step)
  }

  /** How many modules come before that one. */
  function VisitIndex(size: nat, k: nat, step: nat, side: nat): nat {
    k * (2 * size) + 2 * step + side
  }

  function WalkLength(size: nat): nat
    requires size > 0
  {
    (size - 1) / 2 * (2 * size)
  }

  /** The `n`-th module of the walk. */
  function WalkAt(size: nat, n: nat): Pos
    requires size > 0
  {
    var r := Mod(n, 2 * size);
    Visited(size, Div(n, 2 * size), r / 2, r % 2)
  }

  /** When a module is visited: the inverse of `WalkAt` outside column 6. */
  function WalkIndex(size: nat, p: Pos): int {
    var k := if p.x > 6 then (size - 1 - p.x) / 2 else (size - 2 - p.x) / 2;
    var step := if k % 2 == 0 then size - 1 - p.y else p.y;
    k * (2 * size) + 2 * step + (Right(size, if k >= 0 then k else 0) - p.x)
  }

  lemma WalkAtVisit(size: nat, k: nat, step: nat, side: nat)
    requires step < size && side < 2
    ensures WalkAt(size, VisitIndex(size, k, step, side)) == Visited(size, k, step, side)
  {
    QuotientIs(VisitIndex(size, k, step, side), 2 * size, k, 2 * step + side);
  }

  lemma VisitBound(size: nat, k: nat, step: nat, side: nat)
    requires GoodSize(size) && k < (size - 1) / 2 && step < size && side < 2
    ensures VisitIndex(size, k, step, side) < WalkLength(size)
  {
    var d := (size - 1) / 2 - k - 1;
    assert d * (2 * size) >= 0;
    assert (k + 1 + d) * (2 * size) == k * (2 * size) + 2 * size + d * (2 * size);
  }

  lemma VisitParts(size: nat, n: nat) returns (k: nat, step: nat, side: nat)
    requires GoodSize(size) && n < WalkLength(size)
    ensures k < (size - 1) / 2 && step < size && side < 2
    ensures n == VisitIndex(size, k, step, side)
  {
    var q, r := DivMod(n, 2 * size);
    QuotientBelow(n, 2 * size, (size - 1) / 2);
    k, step, side := q, r / 2, r % 2;
  }

  /**
   The walk is a bijection: every module outside column 6 is visited at exactly
   one index, and every index visits a module of the grid outside column 6.
   */
  lemma WalkIsBijection(size: nat, n: nat, p: Pos)
    requires GoodSize(size)
    ensures n < WalkLength(size) ==>
              InGrid(size, WalkAt(size, n)) && WalkAt(size, n).x != 6 && WalkIndex(size, WalkAt(size, n)) == n
    ensures InGrid(size, p) && p.x != 6 ==>
              0 <= WalkIndex(size, p) < WalkLength(size) && WalkAt(size, WalkIndex(size, p)) == p
  {
    hide WalkAt, WalkIndex, WalkLength, VisitIndex, Visited;
    if n < WalkLength(size) {
      var k, step, side := VisitParts(size, n);
      WalkAtVisit(size, k, step, side);
      IndexOfVisited(size, k, step, side);
    }
    if InGrid(size, p) && p.x != 6 {
      var k, step, side := PartsOf(size, p);
      WalkAtVisit(size, k, step, side);
      VisitBound(size, k, step, side);
    }
  }

  lemma PartsOf(size: nat, p: Pos) returns (k: nat, step: nat, side: nat)
    requires GoodSize(size) && InGrid(size, p) && p.x != 6
    ensures k < (size - 1) / 2 && step < size && side < 2
    ensures Visited(size, k, step, side) == p && WalkIndex(size, p) == VisitIndex(size, k, step, side)
  {
    if p.x > 6 {
      k := (size - 1 - p.x) / 2;
      assert Right(size, k) == size - 1 - 2 * k;
    } else {
      k := (size - 2 - p.x) / 2;
      assert Right(size, k) == size - 2 - 2 * k;
    }
    step := if k % 2 == 0 then size - 1 - p.y else p.y;
    side := Right(size, k) - p.x;
  }

  lemma IndexOfVisited(size: nat, k: nat, step: nat, side: nat)
    requires GoodSize(size) && k < (size - 1) / 2 && step < size && side < 2
    ensures var p := Visited(size, k, step, side);
            InGrid(size, p) && p.x != 6 && WalkIndex(size, p) == VisitIndex(size, k, step, side)
  {
    var p := Visited(size, k, step, side);
    var k' := if p.x > 6 then (size - 1 - p.x) / 2 else (size - 2 - p.x) / 2;
    assert k' == k;
  }

  lemma WalkIsInjective(size: nat, m: nat, n: nat)
    requires GoodSize(size) && m < WalkLength(size) && n < WalkLength(size)
    ensures WalkAt(size, m) == WalkAt(size, n) ==> m == n
  {
    hide WalkAt, WalkIndex, WalkLength;
    WalkIsBijection(size, m, Pos(0, 0));
    WalkIsBijection(size, n, Pos(0, 0));
  }
}
