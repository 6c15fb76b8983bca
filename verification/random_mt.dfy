/**
 The block regeneration of base/random_mt.cc for any three-term recurrence: a
 block of N words is overwritten word by word, each new word made from words of
 the old block and words already new, and the result is the next block of the
 infinite sequence.
 */
module BlockRecurrence {

  const N: nat := 624
  const M: nat := 397

  /** x_i: given for i < N, and x_{i-N+M}, x_{i-N} and x_{i-N+1} combined from then on. */
  ghost function Seq<T>(first: seq<T>, step: (T, T, T) -> T, i: nat): T
    requires |first| == N
  {
    if i < N then first[i]
    else step(Seq(first, step, i - N + M), Seq(first, step, i - N), Seq(first, step, i - N + 1))
  }

  /** `words` is the block of the sequence that starts at `from`. */
  ghost predicate Block<T>(words: seq<T>, first: seq<T>, step: (T, T, T) -> T, from: nat)
    requires |first| == N
  {
    |words| == N && forall j | 0 <= j < N :: words[j] == Seq(first, step, from + j)
  }

  /** Partway: the first k words are already one block further on. */
  ghost predicate Partly<T>(words: seq<T>, first: seq<T>, step: (T, T, T) -> T, from: nat, k: nat)
    requires |first| == N
  {
    && |words| == N
    && (forall j | 0 <= j < N && j < k :: words[j] == Seq(first, step, from + N + j))
    && (forall j | 0 <= j < N && k <= j :: words[j] == Seq(first, step, from + j))
  }

  /** Overwriting word k with the combination of words k + M, k and k + 1 (mod N) goes one word further. */
  lemma OneWordFurther<T>(words: seq<T>, first: seq<T>, step: (T, T, T) -> T, from: nat, k: nat)
    requires |first| == N && k < N && Partly(words, first, step, from, k)
    ensures Partly(words[k := step(words[(k + M) % N], words[k], words[(k + 1) % N])], first, step, from, k + 1)
  {
    var a, b := (k + M) % N, (k + 1) % N;
    assert words[a] == Seq(first, step, from + k + M);
    assert words[b] == Seq(first, step, from + k + 1);
    assert words[k] == Seq(first, step, from + k);
    assert Seq(first, step, from + N + k) == step(words[a], words[k], words[b]);
  }

  lemma WholeBlockFurther<T>(words: seq<T>, first: seq<T>, step: (T, T, T) -> T, from: nat)
    requires |first| == N && Partly(words, first, step, from, N)
    ensures Block(words, first, step, from + N)
  {
  }

  lemma WordOf<T>(words: seq<T>, first: seq<T>, step: (T, T, T) -> T, from: nat, k: nat)
    requires |first| == N && Block(words, first, step, from) && k < N
    ensures words[k] == Seq(first, step, from + k)
  {
  }

  lemma FirstBlock<T>(words: seq<T>, step: (T, T, T) -> T)
    requires |words| == N
    ensures Block(words, words, step, 0)
  {
  }

  /** The first n words after seeding. */
  ghost function SeedWords<T>(seedStep: (T, nat) -> T, seed: T, n: nat): (r: seq<T>)
    ensures |r| == n
  {
    if n == 0 then []
    else if n == 1 then [seed]
    else
      var before := SeedWords(seedStep, seed, n - 1);
      before + [seedStep(before[n - 2], n - 1)]
  }

  /** Output i after seeding: the tempered x_{N+i}. */
  ghost function Output<T>(a: Arithmetic<T>, seed: T, i: nat): T {
    a.temper(Seq(SeedWords(a.seedStep, seed, N), a.combine, N + i))
  }

  ghost predicate AreOutputs<T>(out: seq<T>, a: Arithmetic<T>, seed: T) {
    forall i | 0 <= i < |out| :: out[i] == Output(a, seed, i)
  }

  /** What the generator does with words: fill the first block, combine three, temper one. */
  datatype Arithmetic<!T> = Arithmetic(seedStep: (T, nat) -> T, combine: (T, T, T) -> T, temper: T -> T)

  class Random<T(0)> {
    const a: Arithmetic<T>
    const mt: array<T>
    var mti: nat
    ghost var seed: T
    ghost var from: nat

    ghost function First(): (r: seq<T>)
      reads this
      ensures |r| == N
    {
      SeedWords(a.seedStep, seed, N)
    }

    /** The array holds the block of the sequence that starts at `from`. */
    ghost predicate Valid()
      reads this, mt
    {
      mt.Length == N && mti <= N <= from + mti && Block(mt[..], First(), a.combine, from)
    }

    /** How many words have been handed out since seeding. */
    ghost function Given(): int
      reads this
    {
      from + mti - N
    }

    constructor (a: Arithmetic<T>, s: T)
      ensures Valid() && Given() == 0 && seed == s && this.a == a && fresh(mt)
    {
      this.a := a;
      mt := new T[N];
      mti, seed, from := 0, s, 0;
      new;
      Init(s);
    }

    method Init(s: T)
      requires mt.Length == N
      modifies this, mt
      ensures Valid() && Given() == 0 && seed == s
    {
      FillFrom(s);
      seed, from := s, 0;
      FirstBlock(mt[..], a.combine);
    }

    /** The seeding loop. */
    method FillFrom(s: T)
      requires mt.Length == N
      modifies this`mti, mt
      ensures mti == N && mt[..] == SeedWords(a.seedStep, s, N)
    {
      mt[0] := s;
      mti := 1;
      while mti < N
        invariant 1 <= mti <= N && mt[..mti] == SeedWords(a.seedStep, s, mti)
      {
        assert mt[mti - 1] == mt[..mti][mti - 1];
        mt[mti] := a.seedStep(mt[mti - 1], mti);
        assert mt[..mti + 1] == mt[..mti] + [mt[mti]];
        mti := mti + 1;
      }
      assert mt[..N] == mt[..];
    }

    /** Overwrites word kk with its successor one block on. */
    method RegenerateWord(kk: nat, far: nat, near: nat)
      requires mt.Length == N && kk < N && Partly(mt[..], First(), a.combine, from, kk)
      requires far == (kk + M) % N && near == (kk + 1) % N
      modifies mt
      ensures Partly(mt[..], First(), a.combine, from, kk + 1)
    {
      ghost var words := mt[..];
      OneWordFurther(words, First(), a.combine, from, kk);
      mt[kk] := a.combine(mt[far], mt[kk], mt[near]);
      assert mt[..] == words[kk := a.combine(words[far], words[kk], words[near])];
    }

    /** Replaces the block by the next one, in place. */
    method Regenerate()
      requires Valid()
      modifies mt, this`from
      ensures Block(mt[..], First(), a.combine, from) && from == old(from) + N
    {
      var kk := 0;
      while kk < N - M
        invariant 0 <= kk <= N - M && from == old(from) && Partly(mt[..], First(), a.combine, from, kk)
      {
        RegenerateWord(kk, kk + M, kk + 1);
        kk := kk + 1;
      }
      while kk < N - 1
        invariant N - M <= kk <= N - 1 && from == old(from) && Partly(mt[..], First(), a.combine, from, kk)
      {
        RegenerateWord(kk, kk + M - N, kk + 1);
        kk := kk + 1;
      }
      RegenerateWord(N - 1, M - 1, 0);
      WholeBlockFurther(mt[..], First(), a.combine, from);
      from := from + N;
    }

    method Refill()
      requires Valid()
      modifies this`mti, this`from, mt
      ensures Valid() && mti < N && Given() == old(Given())
    {
      if mti >= N {
        Regenerate();
        mti := 0;
      }
    }

    /** The next word of the sequence, from a new block when this one is used up. */
    method NextWord() returns (y: T)
      requires Valid()
      modifies this`mti, this`from, mt
      ensures Valid() && Given() == old(Given()) + 1 && old(Given()) >= 0
      ensures y == Seq(First(), a.combine, N + old(Given()))
    {
      Refill();
      WordOf(mt[..], First(), a.combine, from, mti);
      y := mt[mti];
      mti := mti + 1;
    }

    /** The next word of the tempered sequence. */
    method GenRand() returns (y: T)
      requires Valid()
      modifies this, mt
      ensures Valid() && seed == old(seed) && Given() == old(Given()) + 1 && old(Given()) >= 0
      ensures y == Output(a, seed, old(Given()))
    {
      y := NextWord();
      y := a.temper(y);
    }
  }

  /** The i-th number after seeding is the tempered x_{N+i}, for every seed and every i. */
  method Outputs<T(0)>(a: Arithmetic<T>, seed: T, n: nat) returns (out: seq<T>)
    ensures |out| == n && AreOutputs(out, a, seed)
  {
    var r := new Random(a, seed);
    out := [];
    for i := 0 to n
      invariant r.Valid() && fresh(r) && fresh(r.mt) && r.a == a && r.seed == seed && r.Given() == i == |out|
      invariant AreOutputs(out, a, seed)
    {
      var y := r.GenRand();
      out := out + [y];
    }
  }
}

/** The shift-and-xor steps of the tempering, each undone by repeating it until every bit is settled. */
module XorShifts {
  import opened Words

  /** x ^ ((x << k) & m) */
  function MixLeft(x: Word, k: nat, m: Word): (r: Word)
    requires k <= |x| == |m|
    ensures |r| == |x|
  {
    Xor(x, And(ShiftLeft(x, k), m))
  }

  /** x ^ (x >> k) */
  function MixRight(x: Word, k: nat): (r: Word)
    requires k <= |x|
    ensures |r| == |x|
  {
    Xor(x, ShiftRight(x, k))
  }

  /** Refines a guess y, right in its last g bits, to the word that MixLeft takes to z. */
  function SettleLeft(z: Word, y: Word, k: nat, m: Word, g: nat): (r: Word)
    requires 1 <= k <= |z| == |y| == |m|
    ensures |r| == |z|
    decreases |z| - g
  {
    if g >= |z| then y else SettleLeft(z, Xor(z, And(ShiftLeft(y, k), m)), k, m, g + k)
  }

  function SettleRight(z: Word, y: Word, k: nat, g: nat): (r: Word)
    requires 1 <= k <= |z| == |y|
    ensures |r| == |z|
    decreases |z| - g
  {
    if g >= |z| then y else SettleRight(z, Xor(z, ShiftRight(y, k)), k, g + k)
  }

  function UnmixLeft(z: Word, k: nat, m: Word): (r: Word)
    requires 1 <= k <= |z| == |m|
    ensures |r| == |z|
  {
    SettleLeft(z, z, k, m, k)
  }

  function UnmixRight(z: Word, k: nat): (r: Word)
    requires 1 <= k <= |z|
    ensures |r| == |z|
  {
    SettleRight(z, z, k, k)
  }

  /** x and y agree on the last g bits. */
  ghost predicate SameLow(x: Word, y: Word, g: nat) {
    |x| == |y| && forall i | 0 <= i < |x| && |x| - g <= i :: x[i] == y[i]
  }

  ghost predicate SameHigh(x: Word, y: Word, g: nat) {
    |x| == |y| && forall i | 0 <= i < |x| && i < g :: x[i] == y[i]
  }

  lemma LeftSpreads(z: Word, x: Word, y: Word, k: nat, m: Word, g: nat)
    requires k <= |z| == |x| == |m| && SameLow(x, y, g)
    ensures SameLow(Xor(z, And(ShiftLeft(x, k), m)), Xor(z, And(ShiftLeft(y, k), m)), g + k)
  {
    var n, sx, sy := |z|, ShiftLeft(x, k), ShiftLeft(y, k);
    forall i | 0 <= i < n && n - (g + k) <= i
      ensures sx[i] == sy[i]
    {
      assert i < n - k ==> sx[i] == x[i + k] && sy[i] == y[i + k];
    }
  }

  lemma RightSpreads(z: Word, x: Word, y: Word, k: nat, g: nat)
    requires k <= |z| == |x| && SameHigh(x, y, g)
    ensures SameHigh(Xor(z, ShiftRight(x, k)), Xor(z, ShiftRight(y, k)), g + k)
  {
    var n, sx, sy := |z|, ShiftRight(x, k), ShiftRight(y, k);
    forall i | 0 <= i < n && i < g + k
      ensures sx[i] == sy[i]
    {
      assert i >= k ==> sx[i] == x[i - k] && sy[i] == y[i - k];
    }
  }

  /** x is what the refinement aims at: it reproduces itself. */
  lemma LeftGoal(x: Word, k: nat, m: Word)
    requires k <= |x| == |m|
    ensures Xor(MixLeft(x, k, m), And(ShiftLeft(x, k), m)) == x
  {
  }

  lemma RightGoal(x: Word, k: nat)
    requires k <= |x|
    ensures Xor(MixRight(x, k), ShiftRight(x, k)) == x
  {
  }

  lemma {:induction false} SettleLeftReaches(x: Word, y: Word, k: nat, m: Word, g: nat)
    requires 1 <= k <= |x| == |m| && SameLow(x, y, g)
    ensures SettleLeft(MixLeft(x, k, m), y, k, m, g) == x
    decreases |x| - g
  {
    if g >= |x| {
    } else {
      LeftSpreads(MixLeft(x, k, m), x, y, k, m, g);
      LeftGoal(x, k, m);
      SettleLeftReaches(x, Xor(MixLeft(x, k, m), And(ShiftLeft(y, k), m)), k, m, g + k);
    }
  }

  lemma {:induction false} SettleRightReaches(x: Word, y: Word, k: nat, g: nat)
    requires 1 <= k <= |x| && SameHigh(x, y, g)
    ensures SettleRight(MixRight(x, k), y, k, g) == x
    decreases |x| - g
  {
    if g >= |x| {
    } else {
      RightSpreads(MixRight(x, k), x, y, k, g);
      RightGoal(x, k);
      SettleRightReaches(x, Xor(MixRight(x, k), ShiftRight(y, k)), k, g + k);
    }
  }

  lemma {:induction false} SettleLeftSolves(z: Word, y: Word, k: nat, m: Word, g: nat)
    requires 1 <= k <= |z| == |m| && |y| == |z| && SameLow(y, Xor(z, And(ShiftLeft(y, k), m)), g)
    ensures MixLeft(SettleLeft(z, y, k, m, g), k, m) == z
    decreases |z| - g
  {
    var y' := Xor(z, And(ShiftLeft(y, k), m));
    if g < |z| {
      LeftSpreads(z, y, y', k, m, g);
      SettleLeftSolves(z, y', k, m, g + k);
    } else {
      assert y == y';
      SolvesLeft(z, y, k, m);
    }
  }

  lemma SolvesLeft(z: Word, y: Word, k: nat, m: Word)
    requires k <= |z| == |m| == |y| && y == Xor(z, And(ShiftLeft(y, k), m))
    ensures MixLeft(y, k, m) == z
  {
    var s := And(ShiftLeft(y, k), m);
    forall i | 0 <= i < |z|
      ensures MixLeft(y, k, m)[i] == z[i]
    {
      assert y[i] == (z[i] != s[i]);
    }
  }

  lemma {:induction false} SettleRightSolves(z: Word, y: Word, k: nat, g: nat)
    requires 1 <= k <= |z| && |y| == |z| && SameHigh(y, Xor(z, ShiftRight(y, k)), g)
    ensures MixRight(SettleRight(z, y, k, g), k) == z
    decreases |z| - g
  {
    var y' := Xor(z, ShiftRight(y, k));
    if g < |z| {
      RightSpreads(z, y, y', k, g);
      SettleRightSolves(z, y', k, g + k);
    } else {
      assert y == y';
      SolvesRight(z, y, k);
    }
  }

  lemma SolvesRight(z: Word, y: Word, k: nat)
    requires k <= |z| == |y| && y == Xor(z, ShiftRight(y, k))
    ensures MixRight(y, k) == z
  {
    var s := ShiftRight(y, k);
    forall i | 0 <= i < |z|
      ensures MixRight(y, k)[i] == z[i]
    {
      assert y[i] == (z[i] != s[i]);
    }
  }

  /** Each left step is a bijection, whatever the mask. */
  lemma LeftIsBijection(x: Word, k: nat, m: Word)
    requires 1 <= k <= |x| == |m|
    ensures UnmixLeft(MixLeft(x, k, m), k, m) == x && MixLeft(UnmixLeft(x, k, m), k, m) == x
  {
    SettleLeftReaches(x, MixLeft(x, k, m), k, m, k);
    SettleLeftSolves(x, x, k, m, k);
  }

  /** Each right step is a bijection. */
  lemma RightIsBijection(x: Word, k: nat)
    requires 1 <= k <= |x|
    ensures UnmixRight(MixRight(x, k), k) == x && MixRight(UnmixRight(x, k), k) == x
  {
    SettleRightReaches(x, MixRight(x, k), k, k);
    SettleRightSolves(x, x, k, k);
  }
}

/** The 32-bit arithmetic of MT19937. */
module MersenneTwister {
  import opened Basics
  import opened Words
  import opened BlockRecurrence
  import opened XorShifts

  type Word32 = w: Word | |w| == 32 witness Repeat(false, 32)

  const MATRIX_A: nat := 0x9908b0df
  const UPPER_MASK: nat := 0x80000000
  const LOWER_MASK: nat := 0x7fffffff
  const TEMPERING_B: nat := 0x9d2c5680
  const TEMPERING_C: nat := 0xefc60000

  function SeedStep(prev: Word32, i: nat): Word32 {
    FromNat(1812433253 * ToNat(Xor(prev, ShiftRight(prev, 30))) + i, 32)
  }

  /** The top bit of one word joined to the rest of the next, shifted, and the matrix row when it was odd. */
  function Combine(far: Word32, upper: Word32, lower: Word32): Word32 {
    var y := Or(And(upper, FromNat(UPPER_MASK, 32)), And(lower, FromNat(LOWER_MASK, 32)));
    Xor(Xor(far, ShiftRight(y, 1)), FromNat(if y[31] then MATRIX_A else 0, 32))
  }

  lemma {:induction false} PowerBits(n: nat)
    ensures FromNat(Pow2(n), n + 1) == [true] + Repeat(false, n)
    ensures FromNat(Pow2(n) - 1, n + 1) == [false] + Repeat(true, n)
  {
    if n == 0 {
    } else {
      PowerBits(n - 1);
      var p := Pow2(n - 1);
      assert Pow2(n) == 2 * p && 2 * p / 2 == p && (2 * p - 1) / 2 == p - 1;
      assert FromNat(2 * p, n + 1) == FromNat(p, n) + [false];
      assert FromNat(2 * p - 1, n + 1) == FromNat(p - 1, n) + [true];
      assert [true] + Repeat(false, n) == [true] + Repeat(false, n - 1) + [false];
      assert [false] + Repeat(true, n) == [false] + Repeat(true, n - 1) + [true];
    }
  }

  /** The two masks of the recurrence split a word into its top bit and the rest. */
  lemma MaskBits(upper: nat, lower: nat)
    requires upper == UPPER_MASK && lower == LOWER_MASK
    ensures FromNat(upper, 32) == [true] + Repeat(false, 31)
    ensures FromNat(lower, 32) == [false] + Repeat(true, 31)
  {
    PowerBits(31);
    PowerValue();
  }

  lemma PowerValue()
    ensures Pow2(31) == UPPER_MASK
  {
    assert Pow2(8) == 0x100;
    assert Pow2(16) == 0x10000;
    assert Pow2(24) == 0x1000000;
  }

  /**
   Bit by bit, the recurrence is x_{i+M} plus the twist matrix applied to the
   top bit of x_i followed by the other bits of x_{i+1}.
   */
  lemma CombineBits(far: Word32, upper: Word32, lower: Word32, i: nat)
    requires i < 32
    ensures var joined := [upper[0]] + lower[1..];
            Combine(far, upper, lower)[i]
            == (far[i] != ((if i == 0 then false else joined[i - 1]) != (joined[31] && FromNat(MATRIX_A, 32)[i])))
  {
    MaskBits(UPPER_MASK, LOWER_MASK);
    var joined := [upper[0]] + lower[1..];
    var y := Or(And(upper, FromNat(UPPER_MASK, 32)), And(lower, FromNat(LOWER_MASK, 32)));
    forall k | 0 <= k < 32
      ensures y[k] == joined[k]
    {
    }
    assert y == joined;
    ZeroBits(32);
  }

  lemma {:induction false} ZeroBits(n: nat)
    ensures FromNat(0, n) == Repeat(false, n)
  {
    if n == 0 {
    } else {
      ZeroBits(n - 1);
    }
  }

  function Temper(x: Word32): Word32 {
    TemperWith(x, FromNat(TEMPERING_B, 32), FromNat(TEMPERING_C, 32))
  }

  function TemperWith(x: Word32, b: Word32, c: Word32): Word32 {
    MixRight(MixLeft(MixLeft(MixRight(x, 11), 7, b), 15, c), 18)
  }

  function UntemperWith(z: Word32, b: Word32, c: Word32): Word32 {
    UnmixRight(UnmixLeft(UnmixLeft(UnmixRight(z, 18), 15, c), 7, b), 11)
  }

  function Untemper(z: Word32): Word32 {
    UntemperWith(z, FromNat(TEMPERING_B, 32), FromNat(TEMPERING_C, 32))
  }

  lemma TemperWithIsBijection(x: Word32, b: Word32, c: Word32)
    ensures UntemperWith(TemperWith(x, b, c), b, c) == x && TemperWith(UntemperWith(x, b, c), b, c) == x
  {
    var p := MixRight(x, 11);
    var q := MixLeft(p, 7, b);
    var r := MixLeft(q, 15, c);
    RightIsBijection(r, 18);
    LeftIsBijection(q, 15, c);
    LeftIsBijection(p, 7, b);
    RightIsBijection(x, 11);
    var s := UnmixRight(x, 18);
    var t := UnmixLeft(s, 15, c);
    RightIsBijection(UnmixLeft(t, 7, b), 11);
    LeftIsBijection(t, 7, b);
    LeftIsBijection(s, 15, c);
    RightIsBijection(x, 18);
  }

  /** Tempering is a bijection on 32-bit words. */
  lemma TemperIsBijection(x: Word32)
    ensures Untemper(Temper(x)) == x && Temper(Untemper(x)) == x
  {
    TemperWithIsBijection(x, FromNat(TEMPERING_B, 32), FromNat(TEMPERING_C, 32));
  }

  /** The first n numbers the generator hands out after seeding. */
  method Numbers(seed: Word32, n: nat) returns (out: seq<Word32>)
    ensures |out| == n && AreOutputs(out, Arithmetic(SeedStep, Combine, Temper), seed)
  {
    out := Outputs(Arithmetic(SeedStep, Combine, Temper), seed, n);
  }
}
