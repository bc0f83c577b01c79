/**
 The version and format words are words of their cyclic codes: as polynomials
 over two elements they are multiples of the generator. The encoder gets its
 check bits from a shift register; the reference is long division.
 */
module QrCyclic {
  import opened BitString
  import opened QrTables
  import opened QrPatterns

  /** The remainder of long division by `generator`, whose leading bit is set. */
  function LongDivision(word: seq<bool>, generator: seq<bool>): (r: seq<bool>)
    requires |generator| > 1 && |word| >= |generator| - 1
    ensures |r| == |generator| - 1
    decreases |word|
  {
    if |word| < |generator| then word
    else if word[0] then LongDivision(XorBits(word[..|generator|], generator)[1..] + word[|generator|..], generator)
    else LongDivision(word[1..], generator)
  }

  /** As polynomials over two elements, the word is a multiple of the generator. */
  predicate IsMultiple(word: seq<bool>, generator: seq<bool>)
    requires |generator| > 1 && |word| >= |generator| - 1
  {
    LongDivision(word, generator) == Zeros(|generator| - 1)
  }

  /** The register takes in one more bit. */
  function TakeIn(register: seq<bool>, bit: bool, taps: seq<bool>): (next: seq<bool>)
    requires |register| == |taps| > 0
    ensures |next| == |taps|
  {
    var shifted := register[1..] + [bit];
    if register[0] then XorBits(shifted, taps) else shifted
  }

  function TakeAll(register: seq<bool>, bits: seq<bool>, taps: seq<bool>): (r: seq<bool>)
    requires |register| == |taps| > 0
    ensures |r| == |taps|
    decreases |bits|
  {
    if bits == [] then register else TakeAll(TakeIn(register, bits[0], taps), bits[1..], taps)
  }

  /** Long division is a register that takes in the rest of the word bit by bit. */
  lemma {:induction false} DivisionByRegister(register: seq<bool>, bits: seq<bool>, taps: seq<bool>)
    requires |register| == |taps| > 0
    ensures LongDivision(register + bits, [true] + taps) == TakeAll(register, bits, taps)
    decreases |bits|
  {
    var word, generator := register + bits, [true] + taps;
    if bits == [] {
      assert word == register;
    } else {
      var next := TakeIn(register, bits[0], taps);
      assert word[1..] == (register[1..] + [bits[0]]) + bits[1..];
      if word[0] {
        assert XorBits(word[..|generator|], generator)[1..] == next;
        assert word[|generator|..] == bits[1..];
      }
      DivisionByRegister(next, bits[1..], taps);
    }
  }

  /** The encoder's rounds take in zeros. */
  lemma {:induction false} RoundsTakeInZeros(register: seq<bool>, taps: seq<bool>, rounds: nat)
    requires |register| == |taps| > 0
    ensures CheckBits(register, taps, rounds) == TakeAll(register, Zeros(rounds), taps)
    decreases rounds
  {
    if rounds > 0 {
      assert Zeros(rounds)[1..] == Zeros(rounds - 1);
      RoundsTakeInZeros(ShiftRound(register, taps), taps, rounds - 1);
    }
  }

  lemma TakeInIsLinear(a: seq<bool>, b: seq<bool>, x: bool, y: bool, taps: seq<bool>)
    requires |a| == |b| == |taps| > 0
    ensures TakeIn(XorBits(a, b), x != y, taps) == XorBits(TakeIn(a, x, taps), TakeIn(b, y, taps))
  {}

  lemma {:induction false} TakeAllIsLinear(a: seq<bool>, b: seq<bool>, s: seq<bool>, t: seq<bool>, taps: seq<bool>)
    requires |a| == |b| == |taps| > 0 && |s| == |t|
    ensures TakeAll(XorBits(a, b), XorBits(s, t), taps) == XorBits(TakeAll(a, s, taps), TakeAll(b, t, taps))
    decreases |s|
  {
    if s != [] {
      TakeInIsLinear(a, b, s[0], t[0], taps);
      assert XorBits(s, t)[1..] == XorBits(s[1..], t[1..]);
      TakeAllIsLinear(TakeIn(a, s[0], taps), TakeIn(b, t[0], taps), s[1..], t[1..], taps);
    }
  }

  /** An empty register simply fills up. */
  lemma {:induction false} EmptyFillsUp(done: seq<bool>, bits: seq<bool>, taps: seq<bool>)
    requires |taps| > 0 && |done| + |bits| <= |taps|
    ensures TakeAll(Zeros(|taps| - |done|) + done, bits, taps) == Zeros(|taps| - |done| - |bits|) + done + bits
    decreases |bits|
  {
    if bits == [] {
      assert Zeros(|taps| - |done|) + done == Zeros(|taps| - |done|) + done + bits;
    } else {
      hide XorBits;
      var register := Zeros(|taps| - |done|) + done;
      assert register[1..] + [bits[0]] == Zeros(|taps| - |done| - 1) + (done + [bits[0]]);
      EmptyFillsUp(done + [bits[0]], bits[1..], taps);
      assert done + [bits[0]] + bits[1..] == done + bits;
    }
  }

  /** Data followed by its check bits is a multiple of the generator. */
  lemma CheckedWordDivides(register: seq<bool>, taps: seq<bool>)
    requires |register| == |taps| > 0
    ensures LongDivision(register + CheckBits(register, taps, |taps|), [true] + taps) == Zeros(|taps|)
  {
    var n := |taps|;
    var check := CheckBits(register, taps, n);
    DivisionByRegister(register, check, taps);
    RoundsTakeInZeros(register, taps, n);
    assert Zeros(n) + [] == Zeros(n);
    EmptyFillsUp([], check, taps);
    assert Zeros(0) + [] + check == check;
    TakeAllIsLinear(register, Zeros(n), Zeros(n), check, taps);
    assert XorBits(register, Zeros(n)) == register && XorBits(Zeros(n), check) == check;
    assert XorBits(check, check) == Zeros(n);
  }

  /** Zeros in front of a word change nothing. */
  lemma {:induction false} LeadingZeros(n: nat, word: seq<bool>, generator: seq<bool>)
    requires |generator| > 1 && |word| >= |generator| - 1
    ensures LongDivision(Zeros(n) + word, generator) == LongDivision(word, generator)
    decreases n
  {
    if n == 0 {
      assert Zeros(n) + word == word;
    } else {
      assert (Zeros(n) + word)[1..] == Zeros(n - 1) + word;
      LeadingZeros(n - 1, word, generator);
    }
  }

  /** A code word: the data bits, then the check bits of the same number in a register. */
  lemma CodeWordDivides(register: seq<bool>, data: seq<bool>, taps: seq<bool>)
    requires |data| <= |taps| && |taps| > 0 && register == Zeros(|taps| - |data|) + data
    ensures IsMultiple(data + CheckBits(register, taps, |taps|), [true] + taps)
  {
    var check := CheckBits(register, taps, |taps|);
    CheckedWordDivides(register, taps);
    hide LongDivision, CheckBits;
    assert register + check == Zeros(|taps| - |data|) + (data + check);
    LeadingZeros(|taps| - |data|, data + check, [true] + taps);
  }

  lemma Widened(n: nat, width: nat, more: nat)
    requires n < Pow2(width) && width <= more
    ensures Bits(n, more) == Zeros(more - width) + Bits(n, width)
  {
    hide Bits, Pow2;
    BitsOfTwoFields(0, n, more - width, width);
    BitsOfZero(more - width);
  }

  lemma NumberDivides(n: nat, width: nat, more: nat, taps: seq<bool>)
    requires n < Pow2(width) && width <= more == |taps| && more > 0
    ensures IsMultiple(Bits(n, width) + CheckBits(Bits(n, more), taps, more), [true] + taps)
  {
    hide IsMultiple;
    Widened(n, width, more);
    CodeWordDivides(Bits(n, more), Bits(n, width), taps);
  }

  lemma SmallNumbers(version: Version)
    ensures version < Pow2(6) && Pow2(5) == 32
  {}

  /** The version word is a multiple of 0x1F25. */
  lemma VersionWordDivides(version: Version)
    ensures IsMultiple(VersionInfo(version), [true] + Bits(0xF25, 12))
  {
    SmallNumbers(version);
    hide IsMultiple, CheckBits, Bits, Pow2;
    NumberDivides(version, 6, 12, Bits(0xF25, 12));
  }

  lemma FormatNumberDivides(data: nat)
    requires data < 32
    ensures IsMultiple(FormatWord(data), [true] + Bits(0x137, 10))
  {
    SmallNumbers(1);
    hide IsMultiple, CheckBits, Bits, Pow2;
    NumberDivides(data, 5, 10, Bits(0x137, 10));
  }

  /** The format word, with its mask taken off, is a multiple of 0x537. */
  lemma FormatWordDivides(ecc: Ecc, mask: nat)
    requires mask < 8
    ensures IsMultiple(XorBits(FormatInfo(ecc, mask), FormatMask()), [true] + Bits(0x137, 10))
  {
    hide IsMultiple, FormatWord, FormatMask, Bits, XorBits;
    var data := FormatLevel(ecc) * 8 + mask;
    FormatNumberDivides(data);
    XorTwice(FormatWord(data), FormatMask());
  }
}
