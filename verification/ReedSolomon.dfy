/**
 Reed-Solomon error correction of the QR encoder (ISO/IEC 18004 section 7.5.2
 and annex A).

 A polynomial is the sequence of its coefficients, highest degree first.
 `Generator` and `Remainder` are the encoder's in-place loops; `GeneratorPoly`
 and `RemainderOf` are what they compute, and the theorems at the end say what
 those are: the codewords of a block vanish at 2^0, ..., 2^(n-1), and no other
 check codewords would make them do so.
 */
module ReedSolomon {
  import opened Gf256

  type Poly = seq<Octet>

  /** The value of a polynomial at `x`, by Horner's rule. */
  ghost function Eval(p: Poly, x: Octet): Octet {
    if p == [] then ZERO else Xor(Product(Eval(p[..|p| - 1], x), x), p[|p| - 1])
  }

  ghost function Power(x: Octet, n: nat): Octet {
    if n == 0 then ONE else Product(Power(x, n - 1), x)
  }

  /** The product of `x - 2^i` for `i < n`; subtraction is addition in this field. */
  ghost function RootProduct(x: Octet, n: nat): Octet
    decreases n
  {
    if n == 0 then ONE else Product(RootProduct(x, n - 1), Xor(x, Power(TWO, n - 1)))
  }

  /** `p` is a codeword of the code with `n` check codewords: it vanishes at 2^0, ..., 2^(n-1). */
  ghost predicate IsCodeword(p: Poly, n: nat) {
    forall i :: 0 <= i < n ==> Eval(p, Power(TWO, i)) == ZERO
  }

  // ----- The specification functions -----

  /** Coefficient `i` of `p`, and zero outside it. */
  ghost function At(p: Poly, i: int): Octet {
    if 0 <= i < |p| then p[i] else ZERO
  }

  /** `p` times `x - root`. */
  ghost function TimesRoot(p: Poly, root: Octet): Poly {
    seq(|p| + 1, i requires 0 <= i => Xor(Product(At(p, i - 1), root), At(p, i)))
  }

  /** The monic polynomial whose roots are 2^0, ..., 2^(n-1). */
  ghost function GeneratorPoly(n: nat): (p: Poly)
    ensures |p| == n + 1
  {
    if n == 0 then [ONE] else TimesRoot(GeneratorPoly(n - 1), Power(TWO, n - 1))
  }

  /** One round of synthetic division by the monic polynomial with lower coefficients `divisor`. */
  ghost function DivisionStep(register: Poly, byte: Octet, divisor: Poly): (next: Poly)
    requires |register| == |divisor| > 0
    ensures |next| == |divisor|
  {
    var factor := Xor(byte, register[0]);
    seq(|divisor|, i requires 0 <= i < |divisor| => Xor(At(register, i + 1), Product(divisor[i], factor)))
  }

  ghost function RemainderOf(data: Poly, divisor: Poly): (r: Poly)
    requires data == [] || divisor != []
    ensures |r| == |divisor|
  {
    if data == [] then seq(|divisor|, _ => ZERO)
    else DivisionStep(RemainderOf(data[..|data| - 1], divisor), data[|data| - 1], divisor)
  }

  /** The quotient that synthetic division discards. */
  ghost function QuotientOf(data: Poly, divisor: Poly): (q: Poly)
    requires data == [] || divisor != []
    ensures |q| == |data|
  {
    if data == [] then []
    else
      var front := data[..|data| - 1];
      QuotientOf(front, divisor) + [Xor(data[|data| - 1], RemainderOf(front, divisor)[0])]
  }

  // ----- The encoder's loops -----

  /** What `Generator` holds after `k` factors: the product so far, right-aligned in `n` places. */
  ghost function Window(n: nat, k: nat): (w: Poly)
    ensures |w| == n
  {
    seq(n, i => At(GeneratorPoly(k), k + 1 + i - n))
  }

  lemma TimesRootAt(p: Poly, root: Octet, m: int)
    ensures At(TimesRoot(p, root), m) == Xor(Product(At(p, m - 1), root), At(p, m))
  {
    hide Product, Xor;
    ProductZero(ZERO, root);
    XorInverse(ZERO);
  }

  lemma WindowStep(n: nat, k: nat, i: nat)
    requires i < n
    ensures Window(n, k + 1)[i] == Xor(Product(Window(n, k)[i], Power(TWO, k)), At(Window(n, k), i + 1))
  {
    hide Product, Xor, TimesRoot;
    var m, g := k + 2 + i - n, GeneratorPoly(k);
    TimesRootAt(g, Power(TWO, k), m);
    assert Window(n, k)[i] == At(g, m - 1) && Window(n, k + 1)[i] == At(GeneratorPoly(k + 1), m);
    assert At(Window(n, k), i + 1) == At(g, m);
  }

  lemma WindowStarts(n: nat)
    ensures forall i :: 0 <= i < n ==> Window(n, 0)[i] == if i == n - 1 then ONE else ZERO
  {
    var g := GeneratorPoly(0);
    assert g == [ONE];
    hide GeneratorPoly, Product, Xor;
    forall i | 0 <= i < n
      ensures Window(n, 0)[i] == if i == n - 1 then ONE else ZERO
    {
      assert Window(n, 0)[i] == At(g, 1 + i - n);
    }
  }

  lemma WindowEnds(n: nat)
    ensures Window(n, n) == GeneratorPoly(n)[1..]
  {
    hide GeneratorPoly, Product, Xor;
    var g := GeneratorPoly(n);
    forall i | 0 <= i < n
      ensures Window(n, n)[i] == g[1..][i]
    {
      assert At(g, n + 1 + i - n) == g[i + 1];
    }
  }

  method Generator(t: Tables, degree: nat) returns (coefficients: array<Octet>)
    requires t.Valid()
    ensures fresh(coefficients) && coefficients[..] == GeneratorPoly(degree)[1..]
  {
    hide Product, Xor, TimesRoot;
    coefficients := new Octet[degree](_ => ZERO);
    if degree > 0 {
      coefficients[degree - 1] := ONE;
    }
    WindowStarts(degree);
    WindowEnds(degree);
    var root := ONE;
    for k := 0 to degree
      invariant root == Power(TWO, k)
      invariant coefficients[..] == Window(degree, k)
    {
      ghost var before := coefficients[..];
      for i := 0 to degree
        invariant forall j :: 0 <= j < i ==> coefficients[j] == Window(degree, k + 1)[j]
        invariant forall j :: i <= j < degree ==> coefficients[j] == before[j]
      {
        WindowStep(degree, k, i);
        coefficients[i] := t.Mul(coefficients[i], root);
        if i + 1 < degree {
          coefficients[i] := Xor(coefficients[i], coefficients[i + 1]);
        } else {
          XorInverse(coefficients[i]);
        }
      }
      root := t.Mul(root, TWO);
    }
  }

  /** Rotate the register left by one, and clear the slot that comes round. */
  method ShiftRegister(register: array<Octet>)
    requires register.Length > 0
    modifies register
    ensures forall j :: 0 <= j < register.Length ==> register[j] == At(old(register[..]), j + 1)
  {
    var n := register.Length;
    for i := 0 to n - 1
      invariant forall j :: 0 <= j < i ==> register[j] == old(register[j + 1])
      invariant forall j :: i <= j < n ==> register[j] == old(register[j])
    {
      register[i] := register[i + 1];
    }
    register[n - 1] := ZERO;
  }

  /** Subtract `factor` times the divisor from the register. */
  method SubtractScaled(t: Tables, register: array<Octet>, divisor: seq<Octet>, factor: Octet)
    requires t.Valid() && register.Length == |divisor|
    modifies register
    ensures forall j :: 0 <= j < |divisor| ==> register[j] == Xor(old(register[j]), Product(divisor[j], factor))
  {
    hide Product, Xor;
    for i := 0 to |divisor|
      invariant forall j :: 0 <= j < i ==> register[j] == Xor(old(register[j]), Product(divisor[j], factor))
      invariant forall j :: i <= j < |divisor| ==> register[j] == old(register[j])
    {
      register[i] := Xor(register[i], t.Mul(divisor[i], factor));
    }
  }

  method Remainder(t: Tables, data: seq<Octet>, divisor: seq<Octet>) returns (result: array<Octet>)
    requires t.Valid()
    requires data == [] || divisor != []
    ensures fresh(result) && result[..] == RemainderOf(data, divisor)
  {
    hide Product, Xor;
    result := new Octet[|divisor|](_ => ZERO);
    for k := 0 to |data|
      invariant result[..] == RemainderOf(data[..k], divisor)
    {
      assert data[..k + 1][..k] == data[..k];
      var factor := Xor(data[k], result[0]);
      ghost var next := DivisionStep(result[..], data[k], divisor);
      ShiftRegister(result);
      SubtractScaled(t, result, divisor, factor);
      assert result[..] == next;
    }
    assert data[..|data|] == data;
  }

  // ----- Evaluation -----

  lemma EvalSnoc(p: Poly, c: Octet, x: Octet)
    ensures Eval(p + [c], x) == Xor(Product(Eval(p, x), x), c)
  {
    assert (p + [c])[..|p|] == p;
  }

  lemma {:induction false} EvalAppend(p: Poly, q: Poly, x: Octet)
    ensures Eval(p + q, x) == Xor(Product(Eval(p, x), Power(x, |q|)), Eval(q, x))
  {
    hide Product, Xor;
    if q == [] {
      assert p + q == p;
      ProductCommutes(Eval(p, x), ONE);
      ProductOne(Eval(p, x));
      XorInverse(Eval(p, x));
    } else {
      var front, last := q[..|q| - 1], q[|q| - 1];
      assert p + q == (p + front) + [last];
      EvalSnoc(p + front, last, x);
      EvalAppend(p, front, x);
      var a := Product(Eval(p, x), Power(x, |front|));
      ProductDistributes(a, Eval(front, x), x);
      ProductAssociates(Eval(p, x), Power(x, |front|), x);
      XorAssociates(Product(a, x), Product(Eval(front, x), x), last);
    }
  }

  /** `p` plus `c` times `q`, coefficient by coefficient. */
  ghost function AddScaled(p: Poly, q: Poly, c: Octet): (r: Poly)
    requires |p| == |q|
    ensures |r| == |p|
  {
    seq(|p|, i requires 0 <= i < |p| => Xor(p[i], Product(q[i], c)))
  }

  lemma {:induction false} EvalAddScaled(p: Poly, q: Poly, c: Octet, x: Octet)
    requires |p| == |q|
    ensures Eval(AddScaled(p, q, c), x) == Xor(Eval(p, x), Product(Eval(q, x), c))
  {
    hide Product, Xor;
    if p == [] {
      ProductZero(ZERO, c);
      XorInverse(ZERO);
    } else {
      var n := |p| - 1;
      var r, a, b := AddScaled(p, q, c), Eval(p[..n], x), Eval(q[..n], x);
      assert r[..n] == AddScaled(p[..n], q[..n], c);
      EvalAddScaled(p[..n], q[..n], c, x);
      ProductDistributes(a, Product(b, c), x);
      ProductAssociates(b, c, x);
      ProductCommutes(c, x);
      ProductAssociates(b, x, c);
      ProductDistributes(Product(b, x), q[n], c);
      XorSwaps(Product(a, x), Product(Product(b, x), c), p[n], Product(q[n], c));
    }
  }

  // ----- The generator vanishes exactly where it should -----

  lemma EvalTimesRoot(p: Poly, root: Octet, x: Octet)
    ensures Eval(TimesRoot(p, root), x) == Product(Eval(p, x), Xor(x, root))
  {
    hide Product, Xor;
    var shifted, padded := p + [ZERO], [ZERO] + p;
    forall i | 0 <= i < |p| + 1
      ensures TimesRoot(p, root)[i] == AddScaled(shifted, padded, root)[i]
    {
      XorCommutes(Product(At(p, i - 1), root), At(p, i));
    }
    assert TimesRoot(p, root) == AddScaled(shifted, padded, root);
    EvalAddScaled(shifted, padded, root, x);
    EvalSnoc(p, ZERO, x);
    XorInverse(Product(Eval(p, x), x));
    EvalAppend([ZERO], p, x);
    EvalSnoc([], ZERO, x);
    ProductZero(ZERO, x);
    ProductZero(ZERO, Power(x, |p|));
    XorInverse(ZERO);
    XorInverse(Eval(p, x));
    ProductDistributes(x, root, Eval(p, x));
  }

  /** The generator is the product of the factors `x - 2^i`. */
  lemma {:induction false} GeneratorIsRootProduct(n: nat, x: Octet)
    ensures Eval(GeneratorPoly(n), x) == RootProduct(x, n)
  {
    hide Product, Xor;
    if n == 0 {
      EvalSnoc([], ONE, x);
      ProductZero(ZERO, x);
      XorInverse(ONE);
    } else {
      EvalTimesRoot(GeneratorPoly(n - 1), Power(TWO, n - 1), x);
      GeneratorIsRootProduct(n - 1, x);
    }
  }

  lemma {:induction false} RootProductVanishes(n: nat, i: nat)
    requires i < n
    ensures RootProduct(Power(TWO, i), n) == ZERO
  {
    hide Product, Xor;
    var x := Power(TWO, i);
    XorInverse(x);
    if i < n - 1 {
      RootProductVanishes(n - 1, i);
    }
    ProductZero(RootProduct(x, n - 1), Xor(x, Power(TWO, n - 1)));
  }

  /** A monic polynomial: its leading coefficient comes first, and `x^n` is added for it. */
  lemma GeneratorIsMonic(n: nat)
    ensures GeneratorPoly(n)[0] == ONE
  {
    hide Product, Xor;
    if n > 0 {
      GeneratorIsMonic(n - 1);
      ProductZero(ZERO, Power(TWO, n - 1));
      XorInverse(ONE);
    }
  }

  // ----- Division -----

  lemma DivisionStepEval(register: Poly, byte: Octet, divisor: Poly, x: Octet)
    requires |register| == |divisor| > 0
    ensures var factor := Xor(byte, register[0]);
            Eval([byte] + DivisionStep(register, byte, divisor), x)
            == Xor(Eval(register + [ZERO], x), Product(Eval([ONE] + divisor, x), factor))
  {
    hide Product, Xor;
    var factor := Xor(byte, register[0]);
    var left, right := [byte] + DivisionStep(register, byte, divisor),
        AddScaled(register + [ZERO], [ONE] + divisor, factor);
    forall i | 0 <= i < |left|
      ensures left[i] == right[i]
    {
      if i == 0 {
        ProductOne(factor);
        XorCommutes(byte, register[0]);
        XorAssociates(register[0], register[0], byte);
        XorInverse(register[0]);
        XorInverse(byte);
      }
    }
    assert left == right;
    EvalAddScaled(register + [ZERO], [ONE] + divisor, factor, x);
  }

  /** Long division: `data` shifted up by the check length, plus the remainder, is quotient times divisor. */
  lemma {:induction false} DivisionIdentity(data: Poly, divisor: Poly, x: Octet)
    requires data == [] || divisor != []
    ensures Eval(data + RemainderOf(data, divisor), x)
         == Product(Eval(QuotientOf(data, divisor), x), Eval([ONE] + divisor, x))
  {
    hide Product, Xor, DivisionStep;
    if data == [] {
      assert data + RemainderOf(data, divisor) == RemainderOf(data, divisor);
      EvalZeros(|divisor|, x);
      ProductZero(ZERO, Eval([ONE] + divisor, x));
    } else {
      var front, byte := data[..|data| - 1], data[|data| - 1];
      var register, n := RemainderOf(front, divisor), |divisor|;
      var next, factor, g := DivisionStep(register, byte, divisor), Xor(byte, register[0]), Eval([ONE] + divisor, x);
      assert data + next == front + ([byte] + next);
      EvalAppend(front, [byte] + next, x);
      DivisionStepEval(register, byte, divisor, x);
      EvalAppend(front, register + [ZERO], x);
      assert front + (register + [ZERO]) == (front + register) + [ZERO];
      EvalSnoc(front + register, ZERO, x);
      DivisionIdentity(front, divisor, x);
      var q := Eval(QuotientOf(front, divisor), x);
      DivisionAlgebra(Product(Eval(front, x), Power(x, n + 1)), Eval(register + [ZERO], x), g, factor, q, x);
      EvalSnoc(QuotientOf(front, divisor), factor, x);
    }
  }

  lemma DivisionAlgebra(a: Octet, b: Octet, g: Octet, factor: Octet, q: Octet, x: Octet)
    requires Xor(a, b) == Xor(Product(Product(q, g), x), ZERO)
    ensures Xor(a, Xor(b, Product(g, factor))) == Product(Xor(Product(q, x), factor), g)
  {
    hide Product, Xor;
    XorInverse(Product(Product(q, g), x));
    XorAssociates(a, b, Product(g, factor));
    ProductDistributes(Product(q, x), factor, g);
    ProductCommutes(g, factor);
    ProductAssociates(q, g, x);
    ProductCommutes(g, x);
    ProductAssociates(q, x, g);
  }

  lemma {:induction false} EvalZeros(n: nat, x: Octet)
    ensures Eval(seq(n, _ => ZERO), x) == ZERO
  {
    hide Product, Xor;
    if n > 0 {
      EvalZeros(n - 1, x);
      var zeros: Poly := seq(n, _ => ZERO);
      assert zeros[..n - 1] == seq(n - 1, _ => ZERO);
      ProductZero(ZERO, x);
      XorInverse(ZERO);
    }
  }

  /** The Reed-Solomon theorem: a block followed by its check codewords vanishes at every root. */
  lemma CodewordsVanish(data: Poly, n: nat)
    requires data == [] || n > 0
    ensures IsCodeword(data + RemainderOf(data, GeneratorPoly(n)[1..]), n)
  {
    hide Product, Xor;
    forall i | 0 <= i < n
      ensures Eval(data + RemainderOf(data, GeneratorPoly(n)[1..]), Power(TWO, i)) == ZERO
    {
      var g, x := GeneratorPoly(n), Power(TWO, i);
      DivisionIdentity(data, g[1..], x);
      GeneratorIsMonic(n);
      assert [ONE] + g[1..] == g;
      GeneratorIsRootProduct(n, x);
      RootProductVanishes(n, i);
      ProductZero(Eval(QuotientOf(data, g[1..]), x), ZERO);
    }
  }

  // ----- The check codewords are the only ones that do -----

  /** The quotient of `p` by `x - root`, by synthetic division. */
  ghost function Deflate(p: Poly, root: Octet): (q: Poly)
    requires p != []
    ensures |q| == |p| - 1
  {
    seq(|p| - 1, i requires 0 <= i < |p| - 1 => Eval(p[..i + 1], root))
  }

  lemma {:induction false} FactorTheorem(p: Poly, root: Octet, x: Octet)
    requires p != []
    ensures Eval(p, x) == Xor(Product(Eval(Deflate(p, root), x), Xor(x, root)), Eval(p, root))
  {
    hide Product, Xor;
    var n := |p| - 1;
    if n == 0 {
      EvalSnoc([], p[0], x);
      EvalSnoc([], p[0], root);
      assert p == [] + [p[0]];
      ProductZero(ZERO, x);
      ProductZero(ZERO, root);
      ProductZero(ZERO, Xor(x, root));
      XorInverse(p[0]);
      assert Deflate(p, root) == [];
    } else {
      var front := p[..n];
      FactorTheorem(front, root, x);
      forall i | 0 <= i < n - 1
        ensures Deflate(p, root)[i] == Deflate(front, root)[i]
      {
        assert front[..i + 1] == p[..i + 1];
      }
      var q, e := Eval(Deflate(front, root), x), Eval(front, root);
      assert Deflate(p, root) == Deflate(front, root) + [e];
      EvalSnoc(Deflate(front, root), e, x);
      FactorAlgebra(q, e, x, root, p[n]);
    }
  }

  lemma FactorAlgebra(q: Octet, e: Octet, x: Octet, root: Octet, c: Octet)
    ensures Xor(Product(Xor(Product(q, Xor(x, root)), e), x), c)
         == Xor(Product(Xor(Product(q, x), e), Xor(x, root)), Xor(Product(e, root), c))
  {
    hide Product, Xor;
    var d := Xor(x, root);
    ProductDistributes(Product(q, d), e, x);
    ProductAssociates(q, d, x);
    ProductCommutes(d, x);
    ProductAssociates(q, x, d);
    ProductDistributes(Product(q, x), e, d);
    ProductDistributes(x, root, e);
    // x*e is x*e + root*e + root*e
    var a, b, f := Product(Product(q, x), d), Product(e, x), Product(e, root);
    XorAssociates(a, Xor(b, f), Xor(f, c));
    XorAssociates(b, f, Xor(f, c));
    XorAssociates(f, f, c);
    XorInverse(f);
    XorInverse(c);
    XorAssociates(a, b, c);
  }

  /** A polynomial with as many distinct roots as coefficients is zero. */
  lemma {:induction false} TooManyRoots(p: Poly, roots: seq<Octet>)
    requires |roots| == |p|
    requires forall i, j :: 0 <= i < j < |roots| ==> roots[i] != roots[j]
    requires forall i :: 0 <= i < |roots| ==> Eval(p, roots[i]) == ZERO
    ensures forall i :: 0 <= i < |p| ==> p[i] == ZERO
    decreases |p|
  {
    hide Product, Xor, Eval;
    if p != [] {
      var n := |p| - 1;
      var root, q := roots[n], Deflate(p, roots[n]);
      forall i | 0 <= i < n
        ensures Eval(q, roots[i]) == ZERO
      {
        FactorTheorem(p, root, roots[i]);
        XorInverse(Product(Eval(q, roots[i]), Xor(roots[i], root)));
        NoZeroDivisors(Eval(q, roots[i]), Xor(roots[i], root));
        XorCancels(roots[i], root);
      }
      TooManyRoots(q, roots[..n]);
      forall i | 0 <= i < |p|
        ensures p[i] == ZERO
      {
        assert i < n ==> q[i] == Eval(p[..i + 1], root);
        assert p[..n + 1] == p;
        assert i > 0 ==> q[i - 1] == Eval(p[..i], root);
        CoefficientFromEvals(p, i, root);
      }
    }
  }

  lemma CoefficientFromEvals(p: Poly, i: nat, root: Octet)
    requires i < |p|
    requires Eval(p[..i + 1], root) == ZERO && (i > 0 ==> Eval(p[..i], root) == ZERO)
    ensures p[i] == ZERO
  {
    hide Product, Xor;
    assert p[..i + 1] == p[..i] + [p[i]];
    EvalSnoc(p[..i], p[i], root);
    ProductZero(ZERO, root);
    XorInverse(p[i]);
  }

  lemma {:induction false} PowerInTable(t: seq<Octet>, i: nat)
    requires IsExpTable(t) && i < 256
    ensures Power(TWO, i) == t[i]
  {
    hide Product;
    if i > 0 {
      PowerInTable(t, i - 1);
      assert TWO == TimesX(t[0]) == t[1];
      ExponentsAdd(t, i - 1, 1);
    }
  }

  /**
   The check codewords are determined: up to the 255 distinct powers of 2, a
   block extended by `check` is a codeword exactly when `check` is the remainder
   the encoder computes.
   */
  lemma CheckCodewordsAreUnique(data: Poly, check: Poly)
    requires |check| <= 255
    requires data == [] || check != []
    ensures IsCodeword(data + check, |check|) <==> check == RemainderOf(data, GeneratorPoly(|check|)[1..])
  {
    hide Product, Xor;
    var n := |check|;
    var rest := RemainderOf(data, GeneratorPoly(n)[1..]);
    CodewordsVanish(data, n);
    if IsCodeword(data + check, n) {
      var difference := AddScaled(check, rest, ONE);
      var roots := seq(n, i requires 0 <= i => Power(TWO, i));
      forall i | 0 <= i < n
        ensures Eval(difference, roots[i]) == ZERO
      {
        VanishTogether(data, check, rest, Power(TWO, i));
      }
      RootsAreDistinct(n);
      TooManyRoots(difference, roots);
      forall i | 0 <= i < n
        ensures check[i] == rest[i]
      {
        assert difference[i] == Xor(check[i], Product(rest[i], ONE));
        ProductCommutes(rest[i], ONE);
        ProductOne(rest[i]);
        XorCancels(check[i], rest[i]);
      }
    }
  }

  lemma VanishTogether(data: Poly, p: Poly, q: Poly, x: Octet)
    requires |p| == |q| && Eval(data + p, x) == ZERO && Eval(data + q, x) == ZERO
    ensures Eval(AddScaled(p, q, ONE), x) == ZERO
  {
    hide Product, Xor;
    EvalAppend(data, p, x);
    EvalAppend(data, q, x);
    var shifted := Product(Eval(data, x), Power(x, |p|));
    XorCancels(shifted, Eval(p, x));
    XorCancels(shifted, Eval(q, x));
    EvalAddScaled(p, q, ONE, x);
    ProductCommutes(Eval(q, x), ONE);
    ProductOne(Eval(q, x));
    XorInverse(Eval(p, x));
  }

  lemma RootsAreDistinct(n: nat)
    requires n <= 255
    ensures forall i, j :: 0 <= i < j < n ==> Power(TWO, i) != Power(TWO, j)
  {
    hide Power;
    var t := SomeExpTable();
    forall i, j | 0 <= i < j < n
      ensures Power(TWO, i) != Power(TWO, j)
    {
      PowerInTable(t, i);
      PowerInTable(t, j);
      PowersAreDistinct(t, i, j);
    }
  }
}
