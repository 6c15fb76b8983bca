/** Bits of natural numbers, and the bitwise operators on numbers, defined by halving. */
module BitNumbers {
  import opened Basics

  /** Bit k of a number, counted from the least significant. */
  function Bit(v: nat, k: nat): bool {
    HalvedIsNat(v, Pow2(k));
    v / Pow2(k) % 2 == 1
  }

  lemma HalvedIsNat(v: nat, s: nat)
    requires s >= 1
    ensures v / s >= 0
  {
  }

  function XorOf(a: nat, b: nat): nat {
    if a == 0 && b == 0 then 0 else 2 * XorOf(a / 2, b / 2) + if a % 2 == b % 2 then 0 else 1
  }

  function AndOf(a: nat, b: nat): nat {
    if a == 0 && b == 0 then 0 else 2 * AndOf(a / 2, b / 2) + if a % 2 == 1 && b % 2 == 1 then 1 else 0
  }

  // ----- quotients

  lemma MultipleIsLarge(d: int, s: int)
    requires s >= 1
    ensures d >= 1 ==> d * s >= s
    ensures d <= -1 ==> d * s <= -s
  {
  }

  lemma QuotientIs(v: int, s: int, q: int)
    requires s >= 1 && q * s <= v < q * s + s
    ensures v / s == q && v % s == v - q * s
  {
    var r := v / s;
    assert v == r * s + v % s;
    assert (r - q) * s == r * s - q * s;
    MultipleIsLarge(r - q, s);
  }

  /** Half of a quotient. */
  lemma HalfQuotient(v: nat, s: nat)
    requires s >= 1
    ensures v / s >= 0 && v / s / 2 == v / (2 * s)
  {
    HalvedIsNat(v, s);
    var q, r := v / s, v % s;
    var p := q / 2;
    assert v == q * s + r;
    assert q * s == 2 * (p * s) + (if q % 2 == 1 then s else 0) by {
      assert (2 * p + q % 2) * s == 2 * (p * s) + (q % 2) * s;
    }
    assert p * (2 * s) == 2 * (p * s);
    QuotientIs(v, 2 * s, p);
  }

  /** Half of a remainder. */
  lemma HalfRemainder(v: nat, p: nat)
    requires p >= 1
    ensures v % (2 * p) / 2 == v / 2 % p && v % (2 * p) % 2 == v % 2
  {
    var h := v / 2;
    HalvedIsNat(h, p);
    var q, r := h / p, h % p;
    assert h == q * p + r;
    assert q * (2 * p) == 2 * (q * p);
    QuotientIs(v, 2 * p, q);
  }

  lemma {:induction false} PowerSum(m: nat, n: nat)
    ensures Pow2(m + n) == Pow2(m) * Pow2(n)
  {
    if n == 0 {
    } else {
      PowerSum(m, n - 1);
      assert Pow2(m) * (2 * Pow2(n - 1)) == 2 * (Pow2(m) * Pow2(n - 1));
    }
  }

  // ----- bits

  /** Halving moves every bit down by one. */
  lemma {:induction false} BitOfHalf(v: nat, k: nat)
    ensures Bit(v / 2, k) == Bit(v, k + 1) && Bit(v, 0) == (v % 2 == 1)
  {
    Quotients(v, 1, k);
  }

  /** Dividing by two powers of two is dividing by the power of the sum. */
  lemma {:induction false} Quotients(v: nat, n: nat, k: nat)
    ensures v / Pow2(n) >= 0 && v / Pow2(n) / Pow2(k) == v / Pow2(n + k)
  {
    HalvedIsNat(v, Pow2(n));
    if k == 0 {
    } else {
      Quotients(v, n, k - 1);
      HalfQuotient(v / Pow2(n), Pow2(k - 1));
      HalfQuotient(v, Pow2(n + k - 1));
    }
  }

  /** A shift to the right moves every bit down. */
  lemma BitOfShifted(v: nat, n: nat, k: nat)
    ensures v / Pow2(n) >= 0 && Bit(v / Pow2(n), k) == Bit(v, n + k)
  {
    Quotients(v, n, k);
  }

  /** The remainder by a power of two has just the bits below it. */
  lemma {:induction false} BitOfRemainder(v: nat, n: nat, k: nat)
    ensures Bit(v % Pow2(n), k) == (k < n && Bit(v, k))
    decreases n
  {
    if n == 0 {
      QuotientIs(0, Pow2(k), 0);
    } else {
      var r := v % Pow2(n);
      HalfRemainder(v, Pow2(n - 1));
      BitOfHalf(r, if k == 0 then 0 else k - 1);
      BitOfHalf(v, if k == 0 then 0 else k - 1);
      if k > 0 {
        BitOfRemainder(v / 2, n - 1, k - 1);
      }
    }
  }

  lemma {:induction false} XorBits(a: nat, b: nat, k: nat)
    ensures Bit(XorOf(a, b), k) == (Bit(a, k) != Bit(b, k))
    decreases k
  {
    XorStep(a, b);
    var j := if k == 0 then 0 else k - 1;
    BitOfHalf(a, j);
    BitOfHalf(b, j);
    BitOfHalf(XorOf(a, b), j);
    if k == 0 {
    } else {
      XorBits(a / 2, b / 2, j);
    }
  }

  lemma XorStep(a: nat, b: nat)
    ensures XorOf(a, b) / 2 == XorOf(a / 2, b / 2) && (XorOf(a, b) % 2 == 1 <==> a % 2 != b % 2)
  {
  }

  lemma AndStep(a: nat, b: nat)
    ensures AndOf(a, b) / 2 == AndOf(a / 2, b / 2) && (AndOf(a, b) % 2 == 1 <==> a % 2 == 1 && b % 2 == 1)
  {
  }

  lemma {:induction false} AndBits(a: nat, b: nat, k: nat)
    ensures Bit(AndOf(a, b), k) == (Bit(a, k) && Bit(b, k))
    decreases k
  {
    AndStep(a, b);
    var j := if k == 0 then 0 else k - 1;
    BitOfHalf(a, j);
    BitOfHalf(b, j);
    BitOfHalf(AndOf(a, b), j);
    if k == 0 {
    } else {
      AndBits(a / 2, b / 2, j);
    }
  }

  lemma {:induction false} XorZero(a: nat)
    ensures XorOf(a, 0) == a
  {
    if a == 0 {
    } else {
      XorZero(a / 2);
    }
  }
}
