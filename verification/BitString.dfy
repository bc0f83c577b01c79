/** Numbers as big-endian bit strings. */
module BitString {

  function Digit(b: bool): nat { if b then 1 else 0 }

  function Pow2(n: nat): (p: nat)
    ensures p > 0
  {
    if n == 0 then 1 else 2 * Pow2(n - 1)
  }

  /** The `width` low bits of `n`, most significant first. */
  function Bits(n: nat, width: nat): (s: seq<bool>)
    ensures |s| == width
    decreases width
  {
    if width == 0 then [] else Bits(n / 2, width - 1) + [n % 2 == 1]
  }

  /** The number a bit string spells, most significant bit first. */
  function Value(s: seq<bool>): nat {
    if s == [] then 0 else 2 * Value(s[..|s| - 1]) + Digit(s[|s| - 1])
  }

  function Zeros(n: nat): (s: seq<bool>)
    ensures |s| == n
  {
    seq(n, _ => false)
  }

  lemma {:induction false} BitsOfZero(width: nat)
    ensures Bits(0, width) == Zeros(width)
  {
    if width > 0 {
      BitsOfZero(width - 1);
    }
  }

  lemma {:induction false} ValueBound(s: seq<bool>)
    ensures Value(s) < Pow2(|s|)
  {
    if s != [] {
      ValueBound(s[..|s| - 1]);
    }
  }

  lemma {:induction false} BitsOfValue(s: seq<bool>)
    ensures Bits(Value(s), |s|) == s
  {
    if s != [] {
      var front, last := s[..|s| - 1], s[|s| - 1];
      BitsOfValue(front);
      assert Value(s) / 2 == Value(front);
      assert s == front + [last];
    }
  }

  lemma {:induction false} ValueOfBits(n: nat, width: nat)
    requires n < Pow2(width)
    ensures Value(Bits(n, width)) == n
    decreases width
  {
    if width > 0 {
      ValueOfBits(n / 2, width - 1);
      var s := Bits(n, width);
      assert s[..|s| - 1] == Bits(n / 2, width - 1);
    }
  }

  lemma {:induction false} BitsOfTwoFields(high: nat, low: nat, width: nat, lowWidth: nat)
    requires low < Pow2(lowWidth)
    ensures Bits(high * Pow2(lowWidth) + low, width + lowWidth) == Bits(high, width) + Bits(low, lowWidth)
    decreases lowWidth
  {
    if lowWidth > 0 {
      var p := Pow2(lowWidth - 1);
      var n := high * Pow2(lowWidth) + low;
      TwiceProduct(high, p);
      HalveSum(high * p, low);
      BitsOfTwoFields(high, low / 2, width, lowWidth - 1);
    }
  }

  lemma TwiceProduct(a: nat, b: nat)
    ensures a * (2 * b) == 2 * (a * b)
  {}

  lemma HalveSum(x: nat, low: nat)
    ensures (2 * x + low) / 2 == x + low / 2 && (2 * x + low) % 2 == low % 2
  {}

  /** Bit `i` from the left, as the encoder reads it: a shift and a mask. */
  lemma {:induction false} BitByShift(n: nat, width: nat, i: nat)
    requires i < width
    ensures Bits(n, width)[i] <==> n / Pow2(width - 1 - i) % 2 == 1
    decreases width
  {
    if i < width - 1 {
      BitByShift(n / 2, width - 1, i);
      DivideTwice(n, Pow2(width - 2 - i));
    }
  }

  lemma DivideTwice(n: nat, p: nat)
    requires p > 0
    ensures n / 2 / p == n / (2 * p)
  {
    var q, r := n / 2 / p, n / 2 % p;
    assert n == 2 * (q * p + r) + n % 2;
    assert n == (2 * p) * q + (2 * r + n % 2);
    QuotientIs(n, 2 * p, q, 2 * r + n % 2);
  }

  lemma AtLeastOneMultiple(d: nat, k: int)
    requires k >= 1
    ensures d * k >= d
  {
    ProductGrows(d, 1, k);
  }

  lemma QuotientIs(n: nat, d: nat, q: nat, r: nat)
    requires d > 0 && r < d && n == d * q + r
    ensures n / d == q && n % d == r
  {
    var q', r' := n / d, n % d;
    assert n == d * q' + r';
    assert d * (q - q') == r' - r && d * (q' - q) == r - r';
    if q > q' {
      AtLeastOneMultiple(d, q - q');
    } else if q' > q {
      AtLeastOneMultiple(d, q' - q);
    }
  }

  function Div(n: nat, d: nat): nat
    requires d > 0
  {
    n / d
  }

  function Mod(n: nat, d: nat): nat
    requires d > 0
  {
    n % d
  }

  lemma DivMod(n: nat, d: nat) returns (q: nat, r: nat)
    requires d > 0
    ensures q == n / d && r == n % d < d && n == q * d + r
  {
    q, r := n / d, n % d;
  }

  lemma {:induction false} ProductGrows(d: nat, a: nat, b: nat)
    requires a <= b
    ensures a * d <= b * d
    decreases b - a
  {
    if a < b {
      ProductGrows(d, a, b - 1);
      assert b * d == (b - 1) * d + d;
    }
  }

  lemma QuotientBelow(n: nat, d: nat, q: nat)
    requires d > 0 && n < q * d
    ensures n / d < q
  {
    var k, r := DivMod(n, d);
    if k >= q {
      ProductGrows(d, q, k);
    }
  }
}
