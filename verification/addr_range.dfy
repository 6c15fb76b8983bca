/** Address ranges of base/addr_range.hh, with optional interleaving on a slice of address bits. */
module AddrRanges {
  import opened Basics
  import opened BitNumbers

  /** The number of 64-bit addresses. */
  const ADDRESSES: nat := 0x1_0000_0000_0000_0000

  /** a >> n */
  function Shifted(a: nat, n: nat): nat {
    HalvedIsNat(a, Pow2(n));
    a / Pow2(n)
  }

  /** The answer of an intersection test, which gives up on some interleaved ranges. */
  datatype Answer = Yes | No | Panic

  function Test(b: bool): Answer {
    if b then Yes else No
  }

  datatype AddrRange = AddrRange(start: nat, end: nat, highBit: nat, bits: nat, match_: nat) {

    /** The slice of address bits lies inside the address. */
    ghost predicate WellFormed() {
      start <= end < ADDRESSES && bits <= highBit + 1 <= 64
    }

    predicate Interleaved() {
      bits != 0
    }

    /** (end - start + 1) >> bits, in 64-bit arithmetic. */
    function Size(): nat {
      Shifted((end - start + 1) % ADDRESSES, bits)
    }

    /** The stripe of an address: its bits highBit down to highBit - bits + 1. */
    function Stripe(a: nat): (s: nat)
      requires bits <= highBit + 1
      ensures s < Pow2(bits)
    {
      Shifted(a, highBit + 1 - bits) % Pow2(bits)
    }

    predicate MergesWith(r: AddrRange) {
      r.start == start && r.end == end && r.highBit == highBit && r.bits == bits
    }

    predicate Contains(a: nat)
      requires bits <= highBit + 1
    {
      start <= a <= end && (!Interleaved() || Stripe(a) == match_)
    }

    predicate Overlaps(r: AddrRange) {
      start <= r.end && end >= r.start
    }

    function Intersects(r: AddrRange): Answer
      requires bits <= highBit + 1
    {
      if !Interleaved() then Test(Overlaps(r))
      else if r.Size() == 1 then Test(Contains(r.start))
      else if !r.Interleaved() then Test(Overlaps(r))
      else if MergesWith(r) then Test(match_ == r.match_)
      else Panic
    }

    predicate Less(r: AddrRange) {
      if start != r.start then start < r.start else match_ < r.match_
    }
  }

  function Single(a: nat): AddrRange {
    AddrRange(a, a, 0, 0, 0)
  }

  /** For a single address, intersecting is containing. */
  lemma SingleIntersects(e: AddrRange, a: nat)
    requires e.bits <= e.highBit + 1
    ensures e.Intersects(Single(a)) == Test(e.Contains(a))
  {
    assert Single(a).Size() == 1;
  }

  // ----- stripes

  /** Bit k of an address's stripe is bit highBit + 1 - bits + k of the address. */
  lemma StripeBits(r: AddrRange, a: nat, k: nat)
    requires k < r.bits <= r.highBit + 1
    ensures Bit(r.Stripe(a), k) == Bit(a, r.highBit + 1 - r.bits + k)
  {
    var n := r.highBit + 1 - r.bits;
    BitOfShifted(a, n, k);
    BitOfRemainder(Shifted(a, n), r.bits, k);
  }

  /** The number of neighbouring addresses that go to one stripe. */
  function Granule(r: AddrRange): nat
    requires r.bits <= r.highBit + 1
  {
    Pow2(r.highBit + 1 - r.bits)
  }

  /** One granule lies in one stripe, and the next granule in the next stripe, going round. */
  lemma GranulesGoRound(r: AddrRange, a: nat, b: nat)
    requires r.bits <= r.highBit + 1
    ensures a / Granule(r) == b / Granule(r) ==> r.Stripe(a) == r.Stripe(b)
    ensures r.Stripe(a + Granule(r)) == (r.Stripe(a) + 1) % Pow2(r.bits)
  {
    var g, p := Granule(r), Pow2(r.bits);
    NextQuotient(a, g);
    NextRemainder(Shifted(a, r.highBit + 1 - r.bits), p);
  }

  lemma NextQuotient(a: nat, g: nat)
    requires g >= 1
    ensures (a + g) / g == a / g + 1
  {
    assert a == a / g * g + a % g;
    assert (a / g + 1) * g == a / g * g + g;
    QuotientIs(a + g, g, a / g + 1);
  }

  lemma NextRemainder(q: nat, p: nat)
    requires p >= 1
    ensures (q + 1) % p == (q % p + 1) % p
  {
    var d, m := q / p, q % p;
    assert q == d * p + m;
    if m + 1 == p {
      assert (d + 1) * p == d * p + p;
      QuotientIs(q + 1, p, d + 1);
      QuotientIs(p, p, 1);
    } else {
      QuotientIs(q + 1, p, d);
      QuotientIs(m + 1, p, 0);
    }
  }

  /** Four stripes on bits 7 and 6: address 64 is in stripe 1 and in no other. */
  lemma SecondOfFour(i: nat)
    ensures AddrRange(0, 1023, 7, 2, i).Contains(64) <==> i == 1
  {
    var r := AddrRange(0, 1023, 7, 2, i);
    assert Pow2(1) == 2 && Pow2(2) == 4;
    assert Pow2(4) == 16 && Pow2(6) == 64;
    assert r.Stripe(64) == Shifted(64, 6) % 4 == 1;
  }

  /** What the size test means: one address for a plain range, one address a stripe for an interleaved one. */
  lemma SizeOneIff(r: AddrRange)
    requires r.WellFormed()
    ensures r.Size() == 1 <==> Pow2(r.bits) <= r.end - r.start + 1 < 2 * Pow2(r.bits) && r.end - r.start + 1 < ADDRESSES
    ensures !r.Interleaved() ==> (r.Size() == 1 <==> r.start == r.end)
  {
    var len, p := (r.end - r.start + 1) % ADDRESSES, Pow2(r.bits);
    assert len == len / p * p + len % p;
    if p <= len < 2 * p {
      QuotientIs(len, p, 1);
    }
  }

  // ----- merging stripes back into one range

  datatype Merged = Fatal | Range(r: AddrRange)

  /** The stripes come in order and fit together; `match` is an 8-bit counter. */
  ghost predicate Mergeable(ranges: seq<AddrRange>) {
    ranges != [] ==>
      && |ranges| == Pow2(ranges[0].bits)
      && forall i | 0 <= i < |ranges| :: ranges[0].MergesWith(ranges[i]) && ranges[i].match_ == i % 256
  }

  method Merge(ranges: seq<AddrRange>) returns (m: Merged)
    ensures m.Fatal? <==> !Mergeable(ranges)
    ensures ranges == [] ==> m == Range(AddrRange(1, 0, 0, 0, 0))
    ensures m.Range? && ranges != [] ==> m.r == AddrRange(ranges[0].start, ranges[0].end, 0, 0, 0)
  {
    if ranges == [] {
      return Range(AddrRange(1, 0, 0, 0, 0));
    }
    var front := ranges[0].(match_ := 0);
    if |ranges| != Pow2(front.bits) {
      return Fatal;
    }
    var match_ := 0;
    for i := 0 to |ranges|
      invariant match_ == i % 256
      invariant forall j | 0 <= j < i :: ranges[0].MergesWith(ranges[j]) && ranges[j].match_ == j % 256
    {
      if !front.MergesWith(ranges[i]) {
        return Fatal;
      }
      if ranges[i].match_ != match_ {
        return Fatal;
      }
      match_ := (match_ + 1) % 256;
    }
    m := Range(front.(highBit := 0, bits := 0));
  }

  lemma {:induction false} Pow2Grows(m: nat, n: nat)
    requires m <= n
    ensures Pow2(m) <= Pow2(n)
  {
    if m == n {
    } else {
      Pow2Grows(m, n - 1);
    }
  }

  /** Addresses of the stripes are addresses of the merged range. */
  lemma MergedCovers(ranges: seq<AddrRange>, i: nat, a: nat)
    requires ranges != [] && Mergeable(ranges) && ranges[0].WellFormed() && i < |ranges| && ranges[i].Contains(a)
    ensures ranges[0].start <= a <= ranges[0].end
  {
    assert ranges[0].MergesWith(ranges[i]);
  }

  /**
   An address of the merged range is in one of the stripes exactly when its
   stripe number fits the 8-bit match field; with at most 8 interleaving bits
   that is every address, so the merged range is exactly the union.
   */
  lemma MergedIsUnion(ranges: seq<AddrRange>, a: nat)
    requires ranges != [] && Mergeable(ranges) && ranges[0].WellFormed() && ranges[0].start <= a <= ranges[0].end
    requires forall i | 0 <= i < |ranges| :: ranges[i].bits <= ranges[i].highBit + 1
    ensures (exists i | 0 <= i < |ranges| :: ranges[i].Contains(a)) <==> ranges[0].Stripe(a) < 256
    ensures ranges[0].bits <= 8 ==> ranges[0].Stripe(a) < 256
  {
    var s := ranges[0].Stripe(a);
    assert ranges[0].MergesWith(ranges[s]);
    if s < 256 {
      assert ranges[s].Contains(a);
    }
    forall i | 0 <= i < |ranges| && ranges[i].Contains(a)
      ensures s < 256
    {
      assert ranges[0].MergesWith(ranges[i]);
    }
    if ranges[0].bits <= 8 {
      EightBits(ranges[0].bits);
    }
  }

  lemma EightBits(bits: nat)
    requires bits <= 8
    ensures Pow2(bits) <= 256
  {
    Pow2Grows(bits, 8);
    assert Pow2(8) == 256;
  }

  /** The stripes of a chunk with n interleaving bits, each with its number as the 8-bit match can hold it. */
  function Stripes(bits: nat): (rs: seq<AddrRange>)
    ensures |rs| == Pow2(bits)
  {
    seq(Pow2(bits), i requires 0 <= i => AddrRange(0, 1023, 8, bits, i % 256))
  }

  /** With 512 stripes the merging constructor accepts the list, but no stripe contains an address of stripe 256. */
  lemma StripeLost()
    ensures Mergeable(Stripes(9)) && Stripes(9) != [] && Stripes(9)[0].WellFormed()
    ensures Stripes(9)[0].start <= 256 <= Stripes(9)[0].end && Stripes(9)[0].Stripe(256) == 256
    ensures forall i | 0 <= i < |Stripes(9)| :: !Stripes(9)[i].Contains(256)
  {
    FiveHundredTwelve();
    assert Stripes(9)[0].Stripe(256) == 256 by {
      assert Shifted(256, 0) == 256;
    }
    forall i | 0 <= i < |Stripes(9)|
      ensures !Stripes(9)[i].Contains(256)
    {
      assert Stripes(9)[i].Stripe(256) == 256;
    }
  }

  lemma FiveHundredTwelve()
    ensures Pow2(9) == 512 && Pow2(0) == 1
  {
    assert Pow2(3) == 8;
    assert Pow2(6) == 64;
  }
}
