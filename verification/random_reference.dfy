/** What the operators on words do to their values. */
module WordValues {
  import opened Basics
  import opened Words
  import opened BitNumbers

  lemma {:induction false} ValueBound(a: Word)
    ensures ToNat(a) < Pow2(|a|)
  {
    if a == [] {
    } else {
      ValueBound(a[..|a| - 1]);
    }
  }

  lemma {:induction false} ValueOfConcat(a: Word, b: Word)
    ensures ToNat(a + b) == ToNat(a) * Pow2(|b|) + ToNat(b)
  {
    if b == [] {
      assert a + b == a;
    } else {
      var f := b[..|b| - 1];
      ValueOfConcat(a, f);
      assert (a + b)[..|a + b| - 1] == a + f;
      assert ToNat(a) * (2 * Pow2(|f|)) == 2 * (ToNat(a) * Pow2(|f|));
    }
  }

  lemma {:induction false} ValueOfZeros(n: nat)
    ensures ToNat(Repeat(false, n)) == 0
  {
    if n == 0 {
    } else {
      ValueOfZeros(n - 1);
      assert Repeat(false, n)[..n - 1] == Repeat(false, n - 1);
    }
  }

  /** A word cut in two: the quotient and the remainder by a power of two. */
  lemma ValueOfParts(a: Word, k: nat)
    requires k <= |a|
    ensures ToNat(a[..|a| - k]) == ToNat(a) / Pow2(k) && ToNat(a[|a| - k..]) == ToNat(a) % Pow2(k)
  {
    var hi, lo := a[..|a| - k], a[|a| - k..];
    assert a == hi + lo;
    ValueOfConcat(hi, lo);
    ValueBound(lo);
    QuotientIs(ToNat(a), Pow2(k), ToNat(hi));
  }

  lemma ValueOfShiftRight(a: Word, k: nat)
    requires k <= |a|
    ensures ToNat(ShiftRight(a, k)) == ToNat(a) / Pow2(k)
  {
    ValueOfConcat(Repeat(false, k), a[..|a| - k]);
    ValueOfZeros(k);
    ValueOfParts(a, k);
  }

  lemma ValueOfShiftLeft(a: Word, k: nat)
    requires k <= |a|
    ensures ToNat(ShiftLeft(a, k)) == ToNat(a) * Pow2(k) % Pow2(|a|)
  {
    assert a == a[..k] + a[k..];
    ValueOfConcat(a[..k], a[k..]);
    ValueOfConcat(a[k..], Repeat(false, k));
    ValueOfZeros(k);
    ValueBound(a[k..]);
    PowerSum(|a| - k, k);
    LowPartShifted(ToNat(a[..k]), Pow2(|a| - k), ToNat(a[k..]), Pow2(k));
  }

  lemma LowPartShifted(h: nat, p: nat, l: nat, q: nat)
    requires l < p && q >= 1
    ensures p * q >= 1 && (h * p + l) * q % (p * q) == l * q
  {
    assert (p - 1 - l) * q == p * q - q - l * q;
    assert (p - 1 - l) * q >= 0;
    assert (h * p + l) * q == h * (p * q) + l * q;
    QuotientIs((h * p + l) * q, p * q, h);
  }

  lemma LastBit(a: Word)
    requires a != []
    ensures ToNat(a) / 2 == ToNat(a[..|a| - 1]) && (ToNat(a) % 2 == 1 <==> a[|a| - 1])
  {
  }

  lemma {:induction false} ValueOfXor(a: Word, b: Word)
    requires |a| == |b|
    ensures ToNat(Xor(a, b)) == XorOf(ToNat(a), ToNat(b))
  {
    if a == [] {
    } else {
      var n := |a| - 1;
      ValueOfXor(a[..n], b[..n]);
      assert Xor(a, b)[..n] == Xor(a[..n], b[..n]);
      LastBit(a);
      LastBit(b);
      LastBit(Xor(a, b));
      assert Xor(a, b)[n] == (a[n] != b[n]);
      XorStep(ToNat(a), ToNat(b));
      SameByHalves(ToNat(Xor(a, b)), XorOf(ToNat(a), ToNat(b)));
    }
  }

  lemma SameByHalves(x: nat, y: nat)
    requires x / 2 == y / 2 && (x % 2 == 1 <==> y % 2 == 1)
    ensures x == y
  {
  }

  lemma {:induction false} ValueOfAnd(a: Word, b: Word)
    requires |a| == |b|
    ensures ToNat(And(a, b)) == AndOf(ToNat(a), ToNat(b))
  {
    if a == [] {
    } else {
      var n := |a| - 1;
      ValueOfAnd(a[..n], b[..n]);
      assert And(a, b)[..n] == And(a[..n], b[..n]);
      LastBit(a);
      LastBit(b);
      LastBit(And(a, b));
      assert And(a, b)[n] == (a[n] && b[n]);
      AndStep(ToNat(a), ToNat(b));
      SameByHalves(ToNat(And(a, b)), AndOf(ToNat(a), ToNat(b)));
    }
  }

  lemma {:induction false} ValueOfNumber(v: nat, n: nat)
    ensures ToNat(FromNat(v, n)) == v % Pow2(n)
  {
    if n == 0 {
    } else {
      ValueOfNumber(v / 2, n - 1);
      HalfRemainder(v, Pow2(n - 1));
      assert FromNat(v, n)[..n - 1] == FromNat(v / 2, n - 1);
    }
  }

  lemma PowersOfTwo()
    ensures Pow2(7) == 128 && Pow2(11) == 2048 && Pow2(15) == 0x8000 && Pow2(18) == 0x40000
    ensures Pow2(30) == 0x40000000 && Pow2(31) == 0x80000000 && Pow2(32) == 0x100000000
  {
    assert Pow2(4) == 16;
    assert Pow2(8) == 256;
    assert Pow2(12) == 4096;
    assert Pow2(16) == 65536;
    assert Pow2(20) == 0x100000;
    assert Pow2(24) == 0x1000000;
    assert Pow2(28) == 0x10000000;
  }
}

/**
 MT19937 in plain numbers, as section 26.5.3.2 of ISO C++11 defines the engine,
 and the generator's numbers against it.
 */
module MersenneReference {
  import opened Basics
  import opened Words
  import opened BitNumbers
  import opened WordValues
  import opened BlockRecurrence
  import opened MersenneTwister

  /** x_i from x_{i-1}, for 0 < i < 624. */
  function Seeded(v: nat, i: nat): nat {
    (1812433253 * XorOf(v, v / 0x40000000) + i) % 0x100000000
  }

  /** x_i from x_{i-227}, x_{i-624} and x_{i-623}. */
  function Twisted(far: nat, upper: nat, lower: nat): nat {
    Rotated(far, Joined(upper, lower))
  }

  /** The top bit of one word and the other bits of the next. */
  function Joined(upper: nat, lower: nat): nat {
    upper / 0x80000000 * 0x80000000 + lower % 0x80000000
  }

  function Rotated(far: nat, y: nat): nat {
    XorOf(XorOf(far, y / 2), if y % 2 == 1 then 0x9908b0df else 0)
  }

  function MixedDown(x: nat, power: nat): nat
    requires power >= 1
  {
    HalvedIsNat(x, power);
    XorOf(x, x / power)
  }

  function MixedUp(x: nat, power: nat, mask: nat): nat {
    XorOf(x, AndOf(x * power % 0x100000000, mask))
  }

  /** Shifts by 11, 7, 15 and 18. */
  function Tempered(x: nat): nat {
    MixedDown(MixedUp(MixedUp(MixedDown(x, 0x800), 0x80, 0x9d2c5680), 0x8000, 0xefc60000), 0x40000)
  }

  function X(seed: nat, i: nat): nat {
    if i == 0 then seed
    else if i < 624 then Seeded(X(seed, i - 1), i)
    else Twisted(X(seed, i - 227), X(seed, i - 624), X(seed, i - 623))
  }

  lemma SeedStepValue(prev: Word32, i: nat)
    ensures ToNat(SeedStep(prev, i)) == Seeded(ToNat(prev), i)
  {
    PowersOfTwo();
    ValueOfShiftRight(prev, 30);
    ValueOfXor(prev, ShiftRight(prev, 30));
    ValueOfNumber(1812433253 * ToNat(Xor(prev, ShiftRight(prev, 30))) + i, 32);
  }

  /** The joined word that the recurrence shifts. */
  lemma JoinedValue(upper: Word32, lower: Word32)
    ensures ToNat([upper[0]] + lower[1..]) == Joined(ToNat(upper), ToNat(lower))
  {
    PowersOfTwo();
    ValueOfParts(upper, 31);
    ValueOfParts(lower, 31);
    assert upper[..1] == [upper[0]];
    ValueOfConcat([upper[0]], lower[1..]);
  }

  lemma JoinedWord(upper: Word32, lower: Word32)
    ensures Or(And(upper, FromNat(UPPER_MASK, 32)), And(lower, FromNat(LOWER_MASK, 32))) == [upper[0]] + lower[1..]
  {
    MaskBits(UPPER_MASK, LOWER_MASK);
  }

  lemma CombineValue(far: Word32, upper: Word32, lower: Word32)
    ensures ToNat(Combine(far, upper, lower)) == Twisted(ToNat(far), ToNat(upper), ToNat(lower))
  {
    JoinedWord(upper, lower);
    JoinedValue(upper, lower);
    ShiftedAndAdded(far, [upper[0]] + lower[1..]);
  }

  lemma ShiftedAndAdded(far: Word32, y: Word32)
    ensures ToNat(Xor(Xor(far, ShiftRight(y, 1)), FromNat(if y[31] then MATRIX_A else 0, 32)))
            == Rotated(ToNat(far), ToNat(y))
  {
    PowersOfTwo();
    LastBit(y);
    ValueOfShiftRight(y, 1);
    ValueOfXor(far, ShiftRight(y, 1));
    ValueOfNumber(if y[31] then MATRIX_A else 0, 32);
    ValueOfXor(Xor(far, ShiftRight(y, 1)), FromNat(if y[31] then MATRIX_A else 0, 32));
  }

  lemma MixRightValue(x: Word32, k: nat)
    requires k <= 32
    ensures ToNat(XorShifts.MixRight(x, k)) == MixedDown(ToNat(x), Pow2(k))
  {
    ValueOfShiftRight(x, k);
    ValueOfXor(x, ShiftRight(x, k));
  }

  lemma MixLeftValue(x: Word32, k: nat, m: nat)
    requires k <= 32 && m < 0x100000000
    ensures ToNat(XorShifts.MixLeft(x, k, FromNat(m, 32))) == MixedUp(ToNat(x), Pow2(k), m)
  {
    NumberFits(m);
    MixLeftWord(x, k, FromNat(m, 32));
  }

  lemma NumberFits(m: nat)
    requires m < 0x100000000
    ensures ToNat(FromNat(m, 32)) == m
  {
    PowersOfTwo();
    ValueOfNumber(m, 32);
  }

  lemma MixLeftWord(x: Word32, k: nat, m: Word32)
    requires k <= 32
    ensures ToNat(XorShifts.MixLeft(x, k, m)) == MixedUp(ToNat(x), Pow2(k), ToNat(m))
  {
    PowersOfTwo();
    ValueOfShiftLeft(x, k);
    ValueOfAnd(ShiftLeft(x, k), m);
    ValueOfXor(x, And(ShiftLeft(x, k), m));
  }

  lemma TemperValue(x: Word32)
    ensures ToNat(Temper(x)) == Tempered(ToNat(x))
  {
    PowersOfTwo();
    var y1: Word32 := XorShifts.MixRight(x, 11);
    var y2: Word32 := XorShifts.MixLeft(y1, 7, FromNat(TEMPERING_B, 32));
    var y3: Word32 := XorShifts.MixLeft(y2, 15, FromNat(TEMPERING_C, 32));
    MixRightValue(x, 11);
    MixLeftValue(y1, 7, TEMPERING_B);
    MixLeftValue(y2, 15, TEMPERING_C);
    MixRightValue(y3, 18);
  }

  lemma {:induction false} SeedWordValue(seed: Word32, n: nat, j: nat)
    requires j < n <= N
    ensures ToNat(SeedWords(SeedStep, seed, n)[j]) == X(ToNat(seed), j)
  {
    if n == 1 {
    } else if j < n - 1 {
      SeedWordValue(seed, n - 1, j);
    } else {
      SeedWordValue(seed, n - 1, n - 2);
      SeedStepValue(SeedWords(SeedStep, seed, n - 1)[n - 2], n - 1);
    }
  }

  lemma {:induction false} WordValue(seed: Word32, i: nat)
    ensures ToNat(Seq(SeedWords(SeedStep, seed, N), Combine, i)) == X(ToNat(seed), i)
  {
    var first := SeedWords(SeedStep, seed, N);
    if i < N {
      SeedWordValue(seed, N, i);
    } else {
      WordValue(seed, i - N + M);
      WordValue(seed, i - N);
      WordValue(seed, i - N + 1);
      CombineValue(Seq(first, Combine, i - N + M), Seq(first, Combine, i - N), Seq(first, Combine, i - N + 1));
    }
  }

  /** For every seed, number i that the generator hands out is the tempered x_{624+i} of the standard's engine. */
  method ReferenceNumbers(seed: Word32, n: nat) returns (out: seq<Word32>)
    ensures |out| == n && forall i | 0 <= i < n :: ToNat(out[i]) == Tempered(X(ToNat(seed), 624 + i))
  {
    out := Numbers(seed, n);
    forall i | 0 <= i < n
      ensures ToNat(out[i]) == Tempered(X(ToNat(seed), 624 + i))
    {
      assert out[i] == Output(Arithmetic(SeedStep, Combine, Temper), seed, i);
      WordValue(seed, N + i);
      TemperValue(Seq(SeedWords(SeedStep, seed, N), Combine, N + i));
    }
  }

  /** Words 1 and 2 after seeding with 0. */
  lemma WordsOfZero()
    ensures X(0, 1) == 1 && X(0, 2) == 1812433255
  {
    SeededSmall(0, 1);
    assert X(0, 1) == Seeded(X(0, 0), 1);
    SeededSmall(1, 2);
    assert X(0, 2) == Seeded(X(0, 1), 2);
  }

  /** Words 1 and 2 after seeding with 5489, the standard's default seed. */
  lemma WordsOfDefault(seed: nat)
    requires seed == 5489
    ensures X(seed, 1) == 1301868182 && X(seed, 2) == 2938499221
  {
    var one, two := X(seed, 1), X(seed, 2);
    assert one == Seeded(seed, 1) && two == Seeded(one, 2);
    SeededSmall(seed, 1);
    QuotientIs(9948446125718, 0x100000000, 2316);
    assert one == 1301868182;
    SeededEven(one, 2);
    QuotientIs(2359549185891889301, 0x100000000, 549375355);
  }

  /** Words below 2^30 have no bits to bring down. */
  lemma SeededSmall(v: nat, i: nat)
    requires v < 0x40000000
    ensures Seeded(v, i) == (1812433253 * v + i) % 0x100000000
  {
    XorZero(v);
  }

  /** Even words from 2^30 up to 2^31 get their last bit set. */
  lemma SeededEven(v: nat, i: nat)
    requires 0x40000000 <= v < 0x80000000 && v % 2 == 0
    ensures Seeded(v, i) == (1812433253 * (v + 1) + i) % 0x100000000
  {
    XorWithOne(v);
    QuotientIs(v, 0x40000000, 1);
  }

  lemma XorWithOne(v: nat)
    requires v % 2 == 0
    ensures XorOf(v, 1) == v + 1
  {
    XorStep(v, 1);
    XorZero(v / 2);
    SameByHalves(XorOf(v, 1), v + 1);
  }
}
