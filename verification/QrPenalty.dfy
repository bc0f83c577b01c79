/** The four penalty rules of ISO/IEC 18004 table 11, by which the mask is chosen. */
module QrPenalty {
  import opened BitString
  import opened QrWalk
  import opened QrCanvas

  /** One row, or one column, of the grid. */
  function Line(size: nat, dark: set<Pos>, horizontal: bool, line: nat): (s: seq<bool>)
    ensures |s| == size
  {
    seq(size, i requires 0 <= i < size => (if horizontal then Pos(i, line) else Pos(line, i)) in dark)
  }

  // ----- Rule 1: runs -----

  /** The five modules that end at `j` have one colour. */
  predicate FiveAlike(s: seq<bool>, j: int) {
    4 <= j < |s| && s[j - 4] == s[j - 3] == s[j - 2] == s[j - 1] == s[j]
  }

  /** What the module at `j` costs: one if it ends five alike, and two more if these are the first of their run. */
  function CostAt(s: seq<bool>, j: nat): nat {
    if !FiveAlike(s, j) then 0 else if j == 4 || s[j - 5] != s[j - 4] then 3 else 1
  }

  function RunCost(s: seq<bool>, n: nat): nat
    requires n <= |s|
  {
    if n == 0 then 0 else RunCost(s, n - 1) + CostAt(s, n - 1)
  }

  /** A run of `length` modules by itself. */
  function LengthCost(length: nat): nat {
    if length >= 5 then 3 + (length - 5) else 0
  }

  /** The last `run` of the first `n` modules have one colour, and the one before them has not. */
  predicate EndsInRun(s: seq<bool>, n: nat, run: nat) {
    && run <= n <= |s| && (n > 0 ==> run > 0)
    && (forall i :: n - run <= i < n ==> s[i] == s[n - 1])
    && (run < n ==> s[n - run - 1] != s[n - 1])
  }

  /** One more module of the same colour makes the run one longer, and costs accordingly. */
  lemma RunGrows(s: seq<bool>, n: nat, run: nat)
    requires EndsInRun(s, n, run) && 0 < n < |s| && s[n] == s[n - 1]
    ensures EndsInRun(s, n + 1, run + 1) && LengthCost(run + 1) == LengthCost(run) + CostAt(s, n)
  {
    assert run + 1 >= 5 ==> FiveAlike(s, n);
    assert run + 1 < 5 && n >= 4 ==> s[n - run - 1] != s[n];
  }

  /** A module of the other colour starts a run of one. */
  lemma RunStarts(s: seq<bool>, n: nat)
    requires n < |s| && (n > 0 ==> s[n] != s[n - 1])
    ensures EndsInRun(s, n + 1, 1) && CostAt(s, n) == 0
  {}

  /** The modules from `a` to `b` have one colour. */
  predicate OneColour(s: seq<bool>, a: nat, b: nat) {
    a < b <= |s| && forall i :: a <= i < b ==> s[i] == s[a]
  }

  /** A run of five or more costs two less than its length, a shorter one nothing. */
  lemma {:induction false} RunCosts(s: seq<bool>, a: nat, b: nat)
    requires OneColour(s, a, b) && (a > 0 ==> s[a - 1] != s[a])
    ensures RunCost(s, b) - RunCost(s, a) == if b - a >= 5 then b - a - 2 else 0
    decreases b
  {
    if b == a + 1 {
      RunStarts(s, a);
    } else {
      RunCosts(s, a, b - 1);
      RunGrows(s, b - 1, b - 1 - a);
    }
  }

  method RunPenalty(s: seq<bool>) returns (score: nat)
    ensures score == RunCost(s, |s|)
  {
    score := 0;
    var run := 0;
    for i := 0 to |s|
      invariant EndsInRun(s, i, run) && score + LengthCost(run) == RunCost(s, i)
    {
      if i > 0 && s[i] == s[i - 1] {
        RunGrows(s, i, run);
        run := run + 1;
      } else {
        RunStarts(s, i);
        score := score + LengthCost(run);
        run := 1;
      }
    }
    score := score + LengthCost(run);
  }

  /** All rows and columns. */
  function RunsCost(size: nat, dark: set<Pos>, n: nat): nat {
    if n == 0 then 0
    else RunsCost(size, dark, n - 1)
         + RunCost(Line(size, dark, true, n - 1), size) + RunCost(Line(size, dark, false, n - 1), size)
  }

  // ----- Rule 2: blocks -----

  /** The four modules from here on have one colour. */
  predicate IsBlock(size: nat, dark: set<Pos>, p: Pos) {
    && 0 <= p.x < size - 1 && 0 <= p.y < size - 1
    && ((p in dark) == (Pos(p.x + 1, p.y) in dark) == (Pos(p.x, p.y + 1) in dark) == (Pos(p.x + 1, p.y + 1) in dark))
  }

  ghost function Blocks(size: nat, dark: set<Pos>): set<Pos> {
    set x, y | 0 <= x < size - 1 && 0 <= y < size - 1 && IsBlock(size, dark, Pos(x, y)) :: Pos(x, y)
  }

  /** The blocks of one row of the grid. */
  ghost function BlocksOfRow(size: nat, dark: set<Pos>, y: nat, n: int): set<Pos> {
    set x | 0 <= x < n && IsBlock(size, dark, Pos(x, y)) :: Pos(x, y)
  }

  lemma NextBlock(size: nat, dark: set<Pos>, y: nat, n: nat)
    ensures |BlocksOfRow(size, dark, y, n + 1)|
         == |BlocksOfRow(size, dark, y, n)| + if IsBlock(size, dark, Pos(n, y)) then 1 else 0
  {
    hide IsBlock;
    var before, after := BlocksOfRow(size, dark, y, n), BlocksOfRow(size, dark, y, n + 1);
    if IsBlock(size, dark, Pos(n, y)) {
      assert after == before + {Pos(n, y)};
    } else {
      assert after == before;
    }
  }

  method RowPenalty(size: nat, dark: set<Pos>, y: nat) returns (score: nat)
    requires y < size - 1
    ensures score == 3 * |BlocksOfRow(size, dark, y, size - 1)|
  {
    hide BlocksOfRow;
    score := 0;
    NoBlocks(size, dark, y);
    for x := 0 to size - 1
      invariant score == 3 * |BlocksOfRow(size, dark, y, x)|
    {
      NextBlock(size, dark, y, x);
      var corner := Pos(x, y) in dark;
      if (Pos(x + 1, y) in dark) == corner && (Pos(x, y + 1) in dark) == corner
         && (Pos(x + 1, y + 1) in dark) == corner {
        score := score + 3;
      }
    }
  }

  lemma NoBlocks(size: nat, dark: set<Pos>, y: nat)
    ensures BlocksOfRow(size, dark, y, 0) == {}
  {}

  /** The blocks of the first `n` rows. */
  ghost function BlocksAbove(size: nat, dark: set<Pos>, n: nat): set<Pos> {
    set x, y | 0 <= x < size - 1 && 0 <= y < n && IsBlock(size, dark, Pos(x, y)) :: Pos(x, y)
  }

  lemma NextRow(size: nat, dark: set<Pos>, n: nat)
    ensures |BlocksAbove(size, dark, n + 1)| == |BlocksAbove(size, dark, n)| + |BlocksOfRow(size, dark, n, size - 1)|
  {
    hide IsBlock;
    assert BlocksAbove(size, dark, n + 1) == BlocksAbove(size, dark, n) + BlocksOfRow(size, dark, n, size - 1);
    assert BlocksAbove(size, dark, n) !! BlocksOfRow(size, dark, n, size - 1);
  }

  method BlockPenalty(size: nat, dark: set<Pos>) returns (score: nat)
    requires size > 0
    ensures score == 3 * |Blocks(size, dark)|
  {
    score := 0;
    assert BlocksAbove(size, dark, 0) == {};
    for y := 0 to size - 1
      invariant score == 3 * |BlocksAbove(size, dark, y)|
    {
      var row := RowPenalty(size, dark, y);
      NextRow(size, dark, y);
      score := score + row;
    }
    assert BlocksAbove(size, dark, size - 1) == Blocks(size, dark);
  }

  // ----- Rule 3: what looks like a finder -----

  const FINDER_LIKE := [true, false, true, true, true, false, true, false, false, false, false]

  function Backwards(s: seq<bool>): (t: seq<bool>)
    ensures |t| == |s|
  {
    seq(|s|, i requires 0 <= i < |s| => s[|s| - 1 - i])
  }

  predicate LooksLikeFinder(s: seq<bool>, start: nat) {
    start + 11 <= |s| && (s[start..start + 11] == FINDER_LIKE || s[start..start + 11] == Backwards(FINDER_LIKE))
  }

  function FindersIn(s: seq<bool>, n: nat): nat {
    if n == 0 then 0 else FindersIn(s, n - 1) + if LooksLikeFinder(s, n - 1) then 1 else 0
  }

  /** Compare eleven modules with the pattern, from both ends. */
  method Matches(t: seq<bool>) returns (found: bool)
    requires |t| == 11
    ensures found <==> t == FINDER_LIKE || t == Backwards(FINDER_LIKE)
  {
    var forward, backward := true, true;
    ghost var back := Backwards(FINDER_LIKE);
    for i := 0 to 11
      invariant forward <==> forall k :: 0 <= k < i ==> t[k] == FINDER_LIKE[k]
      invariant backward <==> forall k :: 0 <= k < i ==> t[k] == back[k]
    {
      forward := forward && t[i] == FINDER_LIKE[i];
      backward := backward && t[i] == FINDER_LIKE[10 - i];
    }
    assert forward ==> t == FINDER_LIKE;
    assert backward ==> t == back;
    found := forward || backward;
  }

  method FinderPenalty(s: seq<bool>) returns (score: nat)
    ensures score == 40 * FindersIn(s, |s|)
  {
    hide Backwards;
    score := 0;
    if |s| >= 11 {
      for start := 0 to |s| - 10
        invariant score == 40 * FindersIn(s, start)
      {
        var found := Matches(s[start..start + 11]);
        if found {
          score := score + 40;
        }
      }
      NoneNearTheEnd(s, |s| - 10, |s|);
    } else {
      NoneNearTheEnd(s, 0, |s|);
    }
  }

  lemma {:induction false} NoneNearTheEnd(s: seq<bool>, a: nat, b: nat)
    requires a <= b && a + 11 > |s|
    ensures FindersIn(s, b) == FindersIn(s, a)
    decreases b - a
  {
    if a < b {
      NoneNearTheEnd(s, a, b - 1);
    }
  }

  function FindersCount(size: nat, dark: set<Pos>, n: nat): nat {
    if n == 0 then 0
    else FindersCount(size, dark, n - 1)
         + FindersIn(Line(size, dark, true, n - 1), size) + FindersIn(Line(size, dark, false, n - 1), size)
  }

  // ----- Rule 4: the balance of dark and light -----

  function Deviation(dark: nat, total: nat): nat {
    if 20 * dark >= 10 * total then 20 * dark - 10 * total else 10 * total - 20 * dark
  }

  function BalanceSteps(dark: nat, total: nat): nat
    requires total > 0
  {
    var ceiling := (Deviation(dark, total) + total - 1) / total;
    if ceiling == 0 then 0 else ceiling - 1
  }

  /** At least `k` steps are counted exactly if the dark share is more than `k` times five percent away from half. */
  lemma StepsCountFivePercents(dark: nat, total: nat, k: nat)
    requires total > 0 && k > 0
    ensures BalanceSteps(dark, total) >= k <==> Deviation(dark, total) > k * total
  {
    var d := Deviation(dark, total);
    var q, r := DivMod(d + total - 1, total);
    if q > k {
      ProductGrows(total, k + 1, q);
      assert (k + 1) * total == k * total + total;
    } else {
      ProductGrows(total, q, k);
    }
  }

  // ----- All four -----

  /** The penalty of a finished grid. */
  ghost function PenaltyOf(size: nat, dark: set<Pos>): nat
    requires size > 0
  {
    SquareIsPositive(size);
    RunsCost(size, dark, size) + 3 * |Blocks(size, dark)| + 40 * FindersCount(size, dark, size)
    + 10 * BalanceSteps(|dark|, size * size)
  }

  lemma SquareIsPositive(size: nat)
    requires size > 0
    ensures size * size > 0
  {}

  method Penalty(size: nat, dark: set<Pos>) returns (score: nat)
    requires size > 0
    ensures score == PenaltyOf(size, dark)
  {
    hide RunCost, FindersIn, Blocks, BalanceSteps;
    SquareIsPositive(size);
    var runs, finders := 0, 0;
    for line := 0 to size
      invariant runs == RunsCost(size, dark, line) && finders == 40 * FindersCount(size, dark, line)
    {
      var row, column := Line(size, dark, true, line), Line(size, dark, false, line);
      var r1 := RunPenalty(row);
      var r2 := RunPenalty(column);
      runs := runs + r1 + r2;
      var f1 := FinderPenalty(row);
      var f2 := FinderPenalty(column);
      finders := finders + f1 + f2;
    }
    var blocks := BlockPenalty(size, dark);
    score := runs + blocks + finders + 10 * BalanceSteps(|dark|, size * size);
  }
}
