/**
 The field GF(2^8) of ISO/IEC 18004 section 7.5.2.

 `Product` is the reference: multiplication of polynomials over GF(2) modulo
 x^8 + x^4 + x^3 + x^2 + 1 (0x11D).  `BuildExp`, `BuildLog` and `Tables.Mul` are
 the encoder's antilog table, log table and multiplication through logarithms;
 `Tables.Mul` is proved to compute `Product`.
 */
module Gf256 {
  import opened BitString

  /** A byte as its eight bits, the coefficient of x^7 first. */
  datatype Octet = Octet(b7: bool, b6: bool, b5: bool, b4: bool, b3: bool, b2: bool, b1: bool, b0: bool)

  const ZERO := Octet(false, false, false, false, false, false, false, false)
  const ONE := Octet(false, false, false, false, false, false, false, true)
  const TWO := Octet(false, false, false, false, false, false, true, false)

  /** Addition in the field, which is exclusive or. */
  function Xor(a: Octet, b: Octet): Octet {
    Octet(a.b7 != b.b7, a.b6 != b.b6, a.b5 != b.b5, a.b4 != b.b4,
          a.b3 != b.b3, a.b2 != b.b2, a.b1 != b.b1, a.b0 != b.b0)
  }

  /** Multiplication by x: shift left, and subtract the field polynomial if x^8 appears. */
  function TimesX(a: Octet): Octet {
    Octet(a.b6, a.b5, a.b4, a.b3 != a.b7, a.b2 != a.b7, a.b1 != a.b7, a.b0, a.b7)
  }

  /** The coefficients of a byte, that of x^0 first. */
  function Coefficients(b: Octet): (s: seq<bool>)
    ensures |s| == 8
  {
    [b.b0, b.b1, b.b2, b.b3, b.b4, b.b5, b.b6, b.b7]
  }

  /** `a` times the polynomial with the given coefficients, by Horner's rule. */
  function TimesPolynomial(a: Octet, bits: seq<bool>): Octet
    decreases |bits|
  {
    if bits == [] then ZERO
    else Xor(TimesX(TimesPolynomial(a, bits[1..])), if bits[0] then a else ZERO)
  }

  /** The product of `a` and `b` as polynomials modulo the field polynomial. */
  function Product(a: Octet, b: Octet): Octet {
    TimesPolynomial(a, Coefficients(b))
  }

  // ----- Ring laws -----

  lemma XorSwaps(a: Octet, b: Octet, c: Octet, d: Octet)
    ensures Xor(Xor(a, b), Xor(c, d)) == Xor(Xor(a, c), Xor(b, d))
  {}

  lemma TimesXIsLinear(a: Octet, b: Octet)
    ensures TimesX(Xor(a, b)) == Xor(TimesX(a), TimesX(b))
  {}

  lemma {:induction false} TimesPolynomialDistributes(a: Octet, b: Octet, bits: seq<bool>)
    ensures TimesPolynomial(Xor(a, b), bits) == Xor(TimesPolynomial(a, bits), TimesPolynomial(b, bits))
    decreases |bits|
  {
    assert Xor(ZERO, ZERO) == ZERO;
    hide TimesX, Xor;
    if bits != [] {
      var p, q := TimesPolynomial(a, bits[1..]), TimesPolynomial(b, bits[1..]);
      TimesPolynomialDistributes(a, b, bits[1..]);
      TimesXIsLinear(p, q);
      var low := if bits[0] then a else ZERO;
      var low' := if bits[0] then b else ZERO;
      XorSwaps(TimesX(p), TimesX(q), low, low');
    }
  }

  lemma {:induction false} TimesPolynomialMovesX(a: Octet, bits: seq<bool>)
    ensures TimesPolynomial(TimesX(a), bits) == TimesX(TimesPolynomial(a, bits))
    decreases |bits|
  {
    assert TimesX(ZERO) == ZERO;
    hide Xor, TimesX;
    if bits != [] {
      TimesPolynomialMovesX(a, bits[1..]);
      TimesXIsLinear(TimesX(TimesPolynomial(a, bits[1..])), if bits[0] then a else ZERO);
    }
  }

  /** One step of Horner's rule. */
  function Step(p: Octet, a: Octet, bit: bool): Octet {
    Xor(TimesX(p), if bit then a else ZERO)
  }

  lemma Unfold(a: Octet, s: seq<bool>, k: nat)
    requires k < |s|
    ensures TimesPolynomial(a, s[k..]) == Step(TimesPolynomial(a, s[k + 1..]), a, s[k])
  {
    hide TimesX, Xor;
    assert s[k..][1..] == s[k + 1..];
  }

  lemma FourSteps(a: Octet, s: seq<bool>, k: nat)
    requires k + 4 <= |s|
    ensures TimesPolynomial(a, s[k..])
         == Step(Step(Step(Step(TimesPolynomial(a, s[k + 4..]), a, s[k + 3]), a, s[k + 2]), a, s[k + 1]), a, s[k])
  {
    hide Step, TimesPolynomial;
    Unfold(a, s, k); Unfold(a, s, k + 1); Unfold(a, s, k + 2); Unfold(a, s, k + 3);
  }

  lemma EightSteps(a: Octet, s: seq<bool>)
    requires |s| == 8
    ensures TimesPolynomial(a, s)
         == Step(Step(Step(Step(Step(Step(Step(Step(ZERO, a, s[7]), a, s[6]), a, s[5]), a, s[4]),
                                a, s[3]), a, s[2]), a, s[1]), a, s[0])
  {
    assert s[8..] == [] && s[0..] == s;
    assert TimesPolynomial(a, []) == ZERO;
    hide Step, TimesPolynomial;
    FourSteps(a, s, 0);
    FourSteps(a, s, 4);
  }

  lemma ProductInSteps(a: Octet, b: Octet)
    ensures Product(a, b)
         == Step(Step(Step(Step(Step(Step(Step(Step(ZERO, a, b.b7), a, b.b6), a, b.b5), a, b.b4),
                                a, b.b3), a, b.b2), a, b.b1), a, b.b0)
  {
    hide Step, TimesPolynomial;
    EightSteps(a, Coefficients(b));
  }

  lemma ProductMovesX(a: Octet, b: Octet)
    ensures Product(TimesX(a), b) == TimesX(Product(a, b))
  {
    hide TimesPolynomial, TimesX;
    TimesPolynomialMovesX(a, Coefficients(b));
  }

  lemma ShiftIn(p: Octet, bit: bool)
    requires !p.b7
    ensures Step(p, ONE, bit) == Octet(p.b6, p.b5, p.b4, p.b3, p.b2, p.b1, p.b0, bit)
  {}

  lemma ProductOne(b: Octet)
    ensures Product(ONE, b) == b
  {
    hide Product, Step;
    ProductInSteps(ONE, b);
    ShiftIn(ZERO, b.b7);
    ShiftIn(Octet(false, false, false, false, false, false, false, b.b7), b.b6);
    ShiftIn(Octet(false, false, false, false, false, false, b.b7, b.b6), b.b5);
    ShiftIn(Octet(false, false, false, false, false, b.b7, b.b6, b.b5), b.b4);
    ShiftIn(Octet(false, false, false, false, b.b7, b.b6, b.b5, b.b4), b.b3);
    ShiftIn(Octet(false, false, false, b.b7, b.b6, b.b5, b.b4, b.b3), b.b2);
    ShiftIn(Octet(false, false, b.b7, b.b6, b.b5, b.b4, b.b3, b.b2), b.b1);
    ShiftIn(Octet(false, b.b7, b.b6, b.b5, b.b4, b.b3, b.b2, b.b1), b.b0);
  }

  // ----- Powers of the primitive element -----

  /** `t` is the antilog table: `t[i]` is the primitive element 2 raised to `i`. */
  ghost predicate IsExpTable(t: seq<Octet>) {
    |t| == 256 && t[0] == ONE && forall i {:trigger TimesX(t[i])} :: 0 <= i < 255 ==> t[i + 1] == TimesX(t[i])
  }

  lemma {:induction false} ExponentsAdd(t: seq<Octet>, i: nat, j: nat)
    requires IsExpTable(t) && i + j <= 255
    ensures Product(t[i], t[j]) == t[i + j]
  {
    hide Product, TimesX;
    if i == 0 {
      ProductOne(t[j]);
    } else {
      assert t[i - 1 + 1] == TimesX(t[i - 1]);
      assert t[i + j - 1 + 1] == TimesX(t[i + j - 1]);
      ExponentsAdd(t, i - 1, j);
      ProductMovesX(t[i - 1], t[j]);
    }
  }

  /** Five products that give the powers 34, 51, 85, 170 and 255 from the power 17. */
  lemma KnownProducts()
    ensures Product(Octet(true, false, false, true, true, false, false, false),
            Octet(true, false, false, true, true, false, false, false))
            == Octet(false, true, false, false, true, true, true, false)
    ensures Product(Octet(false, true, false, false, true, true, true, false),
            Octet(true, false, false, true, true, false, false, false))
            == Octet(false, false, false, false, true, false, true, false)
    ensures Product(Octet(false, false, false, false, true, false, true, false),
            Octet(false, true, false, false, true, true, true, false))
            == Octet(true, true, false, true, false, true, true, false)
    ensures Product(Octet(true, true, false, true, false, true, true, false),
            Octet(true, true, false, true, false, true, true, false))
            == Octet(true, true, false, true, false, true, true, true)
    ensures Product(Octet(true, true, false, true, false, true, true, true),
            Octet(true, true, false, true, false, true, true, false)) == ONE
  {
    ProductInSteps(Octet(true, false, false, true, true, false, false, false),
        Octet(true, false, false, true, true, false, false, false));
    ProductInSteps(Octet(false, true, false, false, true, true, true, false),
        Octet(true, false, false, true, true, false, false, false));
    ProductInSteps(Octet(false, false, false, false, true, false, true, false),
        Octet(false, true, false, false, true, true, true, false));
    ProductInSteps(Octet(true, true, false, true, false, true, true, false),
        Octet(true, true, false, true, false, true, true, false));
    ProductInSteps(Octet(true, true, false, true, false, true, true, true),
        Octet(true, true, false, true, false, true, true, false));
  }

  lemma SeventeenthPower(t: seq<Octet>)
    requires IsExpTable(t)
    ensures t[15] == Octet(false, false, true, false, false, true, true, false)
    ensures t[17] == Octet(true, false, false, true, true, false, false, false)
  {
    var a, b, c, d := TimesX(t[0]), TimesX(t[1]), TimesX(t[2]), TimesX(t[3]);
    assert t[4] == Octet(false, false, false, true, false, false, false, false);
    a, b, c, d := TimesX(t[4]), TimesX(t[5]), TimesX(t[6]), TimesX(t[7]);
    assert t[8] == Octet(false, false, false, true, true, true, false, true);
    a, b, c, d := TimesX(t[8]), TimesX(t[9]), TimesX(t[10]), TimesX(t[11]);
    assert t[12] == Octet(true, true, false, false, true, true, false, true);
    a, b, c, d := TimesX(t[12]), TimesX(t[13]), TimesX(t[14]), TimesX(t[15]);
    assert t[17] == TimesX(t[16]);
  }

  lemma KnownPowers(t: seq<Octet>)
    requires IsExpTable(t)
    ensures t[255] == ONE && t[15] != ONE && t[51] != ONE && t[85] != ONE
  {
    hide Product;
    SeventeenthPower(t);
    KnownProducts();
    ExponentsAdd(t, 17, 17);
    ExponentsAdd(t, 34, 17);
    ExponentsAdd(t, 51, 34);
    ExponentsAdd(t, 85, 85);
    ExponentsAdd(t, 170, 85);
  }

  // ----- The order of 2 is 255 -----

  lemma {:induction false} MultiplesOfAPeriod(t: seq<Octet>, d: nat, k: nat, n: nat)
    requires IsExpTable(t) && d <= 255 && t[d] == ONE && n == d * k <= 255
    ensures t[n] == ONE
    decreases k
  {
    hide Product;
    if k > 0 {
      assert n - d == d * (k - 1);
      MultiplesOfAPeriod(t, d, k - 1, n - d);
      ExponentsAdd(t, d, n - d);
      ProductOne(ONE);
    }
  }

  lemma DivisorsOf255(d: nat, k: nat) returns (n: nat, m: nat)
    requires 0 < d < 255 && d * k == 255
    ensures n in {15, 51, 85} && n == d * m
  {
    if d > 15 {
      assert k <= 15;
      assert k == 3 || k == 5 || k == 15;
      n, m := if k == 3 then 85 else 51, if k == 15 then 3 else 1;
    } else {
      assert d == 1 || d == 3 || d == 5 || d == 15;
      n, m := 15, 15 / d;
    }
  }

  lemma {:induction false} NoShorterPeriod(t: seq<Octet>, d: nat)
    requires IsExpTable(t) && 0 < d < 255
    ensures t[d] != ONE
    decreases d
  {
    hide Product;
    KnownPowers(t);
    if t[d] == ONE {
      var k, r := 255 / d, 255 % d;
      MultiplesOfAPeriod(t, d, k, 255 - r);
      ExponentsAdd(t, 255 - r, r);
      ProductOne(t[r]);
      if r > 0 {
        NoShorterPeriod(t, r);
      } else {
        var n, m := DivisorsOf255(d, k);
        MultiplesOfAPeriod(t, d, m, n);
      }
    }
  }

  lemma PowersAreDistinct(t: seq<Octet>, i: nat, j: nat)
    requires IsExpTable(t) && i < j < 255
    ensures t[i] != t[j]
  {
    ExponentsAdd(t, i, 255 - j);
    ExponentsAdd(t, j, 255 - j);
    KnownPowers(t);
    NoShorterPeriod(t, 255 - j + i);
  }

  lemma {:induction false} PowersAreNonzero(t: seq<Octet>, i: nat)
    requires IsExpTable(t) && i < 256
    ensures t[i] != ZERO
  {
    if i > 0 {
      PowersAreNonzero(t, i - 1);
      assert t[i - 1 + 1] == TimesX(t[i - 1]);
    }
  }

  // ----- Every nonzero byte is a power -----

  /** The byte as an unsigned number, the index into the log table. */
  function ToByte(a: Octet): nat {
    Value([a.b7, a.b6, a.b5, a.b4, a.b3, a.b2, a.b1, a.b0])
  }

  /** The bits of the low byte of `n`. */
  function FromByte(n: nat): Octet {
    var s := Bits(n, 8);
    Octet(s[0], s[1], s[2], s[3], s[4], s[5], s[6], s[7])
  }

  lemma FromByteToByte(a: Octet)
    ensures ToByte(a) < 256 && FromByte(ToByte(a)) == a
  {
    hide Value, Bits;
    var s := [a.b7, a.b6, a.b5, a.b4, a.b3, a.b2, a.b1, a.b0];
    BitsOfValue(s);
    ValueBound(s);
    assert Pow2(8) == 256;
  }

  ghost function Values(t: seq<Octet>, n: nat): (s: set<nat>)
    requires n <= |t|
  {
    set i | 0 <= i < n :: ToByte(t[i])
  }

  lemma {:induction false} CountDistinct(t: seq<Octet>, n: nat)
    requires IsExpTable(t) && n <= 255
    ensures |Values(t, n)| == n
  {
    if n > 0 {
      CountDistinct(t, n - 1);
      var v := ToByte(t[n - 1]);
      if v in Values(t, n - 1) {
        var i :| 0 <= i < n - 1 && ToByte(t[i]) == v;
        FromByteToByte(t[i]);
        FromByteToByte(t[n - 1]);
        PowersAreDistinct(t, i, n - 1);
      }
      assert Values(t, n) == Values(t, n - 1) + {v};
    }
  }

  ghost function Below(n: nat): (s: set<nat>)
    ensures |s| == n
    ensures forall v: nat :: v in s <==> v < n
  {
    if n == 0 then {} else Below(n - 1) + {n - 1}
  }

  lemma SubsetOfSameSize(a: set<nat>, b: set<nat>)
    requires a <= b && |a| == |b|
    ensures a == b
  {
    assert |b - a| == |b| - |a|;
    assert b == a + (b - a);
  }

  lemma NonzeroByte(a: Octet)
    requires a != ZERO
    ensures 0 < ToByte(a) < 256
  {
    FromByteToByte(a);
    assert FromByte(0) == ZERO;
    hide ToByte;
  }

  lemma PowersCover(t: seq<Octet>, n: nat, a: Octet)
    requires IsExpTable(t) && n == 256 && a != ZERO
    ensures ToByte(a) in Values(t, 255)
  {
    hide Below, ToByte;
    var all := Below(n) - {0};
    NonzeroByte(a);
    forall i | 0 <= i < 255
      ensures ToByte(t[i]) in all
    {
      PowersAreNonzero(t, i);
      NonzeroByte(t[i]);
    }
    CountDistinct(t, 255);
    assert |all| == |Below(n)| - 1 by { assert 0 in Below(n); }
    SubsetOfSameSize(Values(t, 255), all);
  }

  /** 2 is a primitive element: its first 255 powers are all the nonzero bytes. */
  lemma EveryNonzeroIsAPower(t: seq<Octet>, a: Octet) returns (i: nat)
    requires IsExpTable(t) && a != ZERO
    ensures i < 255 && t[i] == a
  {
    PowersCover(t, 256, a);
    i :| 0 <= i < 255 && ToByte(t[i]) == ToByte(a);
    FromByteToByte(t[i]);
    FromByteToByte(a);
  }

  lemma ExponentsWrap(t: seq<Octet>, i: nat, j: nat)
    requires IsExpTable(t) && i < 255 && j < 255
    ensures Product(t[i], t[j]) == t[(i + j) % 255]
  {
    hide Product, TimesX;
    KnownPowers(t);
    if i + j <= 255 {
      ExponentsAdd(t, i, j);
    } else {
      ExponentsPast255(t, i, j);
    }
  }

  lemma {:induction false} ExponentsPast255(t: seq<Octet>, i: nat, j: nat)
    requires IsExpTable(t) && i < 255 && j < 255 && i + j >= 255
    ensures Product(t[i], t[j]) == t[i + j - 255]
  {
    hide Product, TimesX;
    if i + j == 255 {
      KnownPowers(t);
      ExponentsAdd(t, i, j);
    } else {
      var k := i + j - 256;
      ExponentsPast255(t, i - 1, j);
      assert t[i - 1 + 1] == TimesX(t[i - 1]) && t[k + 1] == TimesX(t[k]);
      ProductMovesX(t[i - 1], t[j]);
    }
  }

  // ----- The encoder's tables -----

  /** The antilog table, by repeated doubling and reduction. */
  method BuildExp() returns (exp: array<Octet>)
    ensures fresh(exp) && IsExpTable(exp[..])
  {
    exp := new Octet[256](_ => ZERO);
    var value := ONE;
    var i := 0;
    while i < 256
      invariant 0 <= i <= 256
      invariant i == 0 ==> value == ONE
      invariant i > 0 ==> exp[0] == ONE && value == TimesX(exp[i - 1])
      invariant forall k {:trigger TimesX(exp[k])} :: 0 <= k < i - 1 ==> exp[k + 1] == TimesX(exp[k])
    {
      exp[i] := value;
      value := TimesX(value);
      i := i + 1;
    }
  }

  ghost predicate IsLogTable(log: seq<nat>, exp: seq<Octet>)
    requires IsExpTable(exp)
  {
    |log| == 256 && forall i :: 0 <= i < 255 ==> ToByte(exp[i]) < 256 && log[ToByte(exp[i])] == i
  }

  /** The log table: the inverse of the first 255 entries of the antilog table. */
  method BuildLog(exp: array<Octet>) returns (log: array<nat>)
    requires IsExpTable(exp[..])
    ensures fresh(log) && IsLogTable(log[..], exp[..])
  {
    hide ToByte, TimesX;
    log := new nat[256](_ => 0);
    ghost var table := exp[..];
    var i := 0;
    while i < 255
      invariant 0 <= i <= 255
      invariant table == exp[..]
      invariant forall k :: 0 <= k < i ==> ToByte(exp[k]) < 256 && log[ToByte(exp[k])] == k
    {
      FromByteToByte(exp[i]);
      forall k | 0 <= k < i
        ensures ToByte(exp[k]) != ToByte(exp[i])
      {
        FromByteToByte(exp[k]);
        PowersAreDistinct(table, k, i);
      }
      log[ToByte(exp[i])] := i;
      i := i + 1;
    }
  }

  /** The two constant tables together. */
  datatype Tables = Tables(exp: seq<Octet>, log: seq<nat>) {

    ghost predicate Valid() {
      IsExpTable(exp) && IsLogTable(log, exp)
    }

    /** Multiplication through logarithms is multiplication of polynomials modulo 0x11D. */
    function Mul(a: Octet, b: Octet): (r: Octet)
      requires Valid()
      ensures r == Product(a, b)
    {
      LogOfNonzero(this, a);
      LogOfNonzero(this, b);
      if a == ZERO || b == ZERO then
        ProductZero(a, b);
        ZERO
      else
        var x, y := log[ToByte(a)], log[ToByte(b)];
        ExponentsWrap(exp, x, y);
        exp[(x + y) % 255]
    }
  }

  lemma LogOfNonzero(t: Tables, a: Octet)
    requires t.Valid()
    ensures ToByte(a) < 256
    ensures a != ZERO ==> t.log[ToByte(a)] < 255 && t.exp[t.log[ToByte(a)]] == a
  {
    FromByteToByte(a);
    if a != ZERO {
      var i := EveryNonzeroIsAPower(t.exp, a);
    }
  }

  method BuildTables() returns (t: Tables)
    ensures t.Valid()
  {
    var exp := BuildExp();
    var log := BuildLog(exp);
    t := Tables(exp[..], log[..]);
  }

  // ----- Field laws of the reference product -----

  lemma XorInverse(a: Octet)
    ensures Xor(a, a) == ZERO && Xor(a, ZERO) == a && Xor(ZERO, a) == a
  {}

  lemma XorCommutes(a: Octet, b: Octet)
    ensures Xor(a, b) == Xor(b, a)
  {}

  lemma XorAssociates(a: Octet, b: Octet, c: Octet)
    ensures Xor(Xor(a, b), c) == Xor(a, Xor(b, c))
  {}

  lemma XorCancels(a: Octet, b: Octet)
    ensures Xor(a, b) == ZERO <==> a == b
  {}

  lemma ProductZero(a: Octet, b: Octet)
    ensures a == ZERO || b == ZERO ==> Product(a, b) == ZERO
  {
    hide TimesPolynomial, Xor;
    assert Step(ZERO, a, false) == ZERO by { XorInverse(ZERO); }
    ProductInSteps(a, ZERO);
    XorInverse(ZERO);
    XorInverse(Product(ZERO, b));
    TimesPolynomialDistributes(ZERO, ZERO, Coefficients(b));
  }

  lemma SomeExpTable() returns (t: seq<Octet>)
    ensures IsExpTable(t)
  {
    t := [ONE];
    while |t| < 256
      invariant 1 <= |t| <= 256 && t[0] == ONE
      invariant forall i {:trigger TimesX(t[i])} :: 0 <= i < |t| - 1 ==> t[i + 1] == TimesX(t[i])
    {
      t := t + [TimesX(t[|t| - 1])];
    }
  }

  lemma ProductCommutes(a: Octet, b: Octet)
    ensures Product(a, b) == Product(b, a)
  {
    hide Product;
    ProductZero(a, b);
    ProductZero(b, a);
    if a != ZERO && b != ZERO {
      var t := SomeExpTable();
      var i := EveryNonzeroIsAPower(t, a);
      var j := EveryNonzeroIsAPower(t, b);
      ExponentsWrap(t, i, j);
      ExponentsWrap(t, j, i);
    }
  }

  lemma ProductAssociates(a: Octet, b: Octet, c: Octet)
    ensures Product(Product(a, b), c) == Product(a, Product(b, c))
  {
    hide Product;
    if a == ZERO || b == ZERO || c == ZERO {
      ZeroAssociates(a, b, c);
    } else {
      var t := SomeExpTable();
      var i := EveryNonzeroIsAPower(t, a);
      var j := EveryNonzeroIsAPower(t, b);
      var k := EveryNonzeroIsAPower(t, c);
      PowersAssociate(t, i, j, k);
    }
  }

  lemma ZeroAssociates(a: Octet, b: Octet, c: Octet)
    requires a == ZERO || b == ZERO || c == ZERO
    ensures Product(Product(a, b), c) == Product(a, Product(b, c))
  {
    hide Product;
    ProductZero(a, b);
    ProductZero(b, c);
    ProductZero(Product(a, b), c);
    ProductZero(a, Product(b, c));
  }

  lemma PowersAssociate(t: seq<Octet>, i: nat, j: nat, k: nat)
    requires IsExpTable(t) && |t| >= 255 && i < 255 && j < 255 && k < 255
    ensures Product(Product(t[i], t[j]), t[k]) == Product(t[i], Product(t[j], t[k]))
  {
    hide Product, IsExpTable;
    ExponentsWrap(t, i, j);
    ExponentsWrap(t, j, k);
    ExponentsWrap(t, (i + j) % 255, k);
    ExponentsWrap(t, i, (j + k) % 255);
    SumsWrap(i, j, k);
  }

  lemma SumsWrap(i: nat, j: nat, k: nat)
    ensures ((i + j) % 255 + k) % 255 == (i + (j + k) % 255) % 255
  {}

  lemma ProductDistributes(a: Octet, b: Octet, c: Octet)
    ensures Product(Xor(a, b), c) == Xor(Product(a, c), Product(b, c))
    ensures Product(c, Xor(a, b)) == Xor(Product(c, a), Product(c, b))
  {
    hide TimesPolynomial, Xor;
    TimesPolynomialDistributes(a, b, Coefficients(c));
    ProductCommutes(c, Xor(a, b));
    ProductCommutes(c, a);
    ProductCommutes(c, b);
  }

  lemma NoZeroDivisors(a: Octet, b: Octet)
    requires Product(a, b) == ZERO
    ensures a == ZERO || b == ZERO
  {
    hide Product;
    if a != ZERO && b != ZERO {
      var t := SomeExpTable();
      var i := EveryNonzeroIsAPower(t, a);
      var j := EveryNonzeroIsAPower(t, b);
      ExponentsWrap(t, i, j);
      PowersAreNonzero(t, (i + j) % 255);
    }
  }
}
