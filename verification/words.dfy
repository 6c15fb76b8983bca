/**
 Words of a fixed number of bits, most significant bit first, with the
 operators the prefix trie uses on its keys and the generator on its state.
 */
module Words {

  type Word = seq<bool>

  function And(a: Word, b: Word): (r: Word)
    requires |a| == |b|
    ensures |r| == |a|
  {
    seq(|a|, i requires 0 <= i < |a| => a[i] && b[i])
  }

  function Or(a: Word, b: Word): (r: Word)
    requires |a| == |b|
    ensures |r| == |a|
  {
    seq(|a|, i requires 0 <= i < |a| => a[i] || b[i])
  }

  function Repeat(b: bool, n: nat): (r: Word)
    ensures |r| == n
  {
    seq(n, _ => b)
  }

  /** Logical shift left by k. */
  function ShiftLeft(a: Word, k: nat): (r: Word)
    requires k <= |a|
    ensures |r| == |a|
  {
    a[k..] + Repeat(false, k)
  }

  /** Logical shift right by k. */
  function ShiftRight(a: Word, k: nat): (r: Word)
    requires k <= |a|
    ensures |r| == |a|
  {
    Repeat(false, k) + a[..|a| - k]
  }

  function Xor(a: Word, b: Word): (r: Word)
    requires |a| == |b|
    ensures |r| == |a|
  {
    seq(|a|, i requires 0 <= i < |a| => a[i] != b[i])
  }

  /** The value of a word as an unsigned number. */
  function ToNat(a: Word): nat {
    if a == [] then 0 else 2 * ToNat(a[..|a| - 1]) + if a[|a| - 1] then 1 else 0
  }

  /** The low `bits` bits of a number. */
  function FromNat(n: nat, bits: nat): (r: Word)
    ensures |r| == bits
  {
    if bits == 0 then [] else FromNat(n / 2, bits - 1) + [n % 2 == 1]
  }

  /** The word whose only one is the most significant bit. */
  function TopBit(bits: nat): (r: Word)
    requires bits >= 1
    ensures |r| == bits
  {
    [true] + Repeat(false, bits - 1)
  }

  /** Grows a mask by one bit towards the least significant end. */
  function ExtendMask(orig: Word): (r: Word)
    requires |orig| >= 1
    ensures |r| == |orig|
  {
    Or(Or(orig, ShiftRight(orig, 1)), TopBit(|orig|))
  }

  /** The mask of the top `width` bits, shifted together as `insert` does. */
  function WidthMask(bits: nat, width: nat): (r: Word)
    ensures |r| == bits
  {
    var ones := Repeat(true, bits);
    if width < bits then ShiftLeft(ones, bits - width) else ones
  }

  /** The word whose first w bits are ones and whose other bits are zeros. */
  ghost function Mask(bits: nat, w: nat): (r: Word)
    ensures |r| == bits
  {
    seq(bits, i => i < w)
  }

  ghost function Clip(width: nat, bits: nat): (w: nat)
    ensures w <= bits
  {
    if width < bits then width else bits
  }

  lemma WidthMaskIsMask(bits: nat, width: nat)
    ensures WidthMask(bits, width) == Mask(bits, Clip(width, bits))
  {
  }

  /** Extending the mask of w bits gives the mask of w + 1 bits, until it is full. */
  lemma ExtendMaskAddsOneBit(bits: nat, w: nat)
    requires 1 <= bits && w <= bits
    ensures ExtendMask(Mask(bits, w)) == Mask(bits, Clip(w + 1, bits))
  {
    var m := Mask(bits, w);
    var e := ExtendMask(m);
    forall i | 0 <= i < bits
      ensures e[i] == (i < w + 1)
    {
      assert ShiftRight(m, 1)[i] == (i > 0 && m[i - 1]);
      assert TopBit(bits)[i] == (i == 0);
    }
  }

  /** Words are equal under a mask exactly when they share the masked prefix. */
  lemma EqualUnderMask(a: Word, b: Word, w: nat)
    requires |a| == |b| && w <= |a|
    ensures And(a, Mask(|a|, w)) == And(b, Mask(|a|, w)) <==> a[..w] == b[..w]
  {
    var m := Mask(|a|, w);
    if And(a, m) == And(b, m) {
      forall i | 0 <= i < w
        ensures a[i] == b[i]
      {
        assert And(a, m)[i] == a[i];
        assert And(b, m)[i] == b[i];
      }
    } else if a[..w] == b[..w] {
      forall i | 0 <= i < |a|
        ensures And(a, m)[i] == And(b, m)[i]
      {
        assert i < w ==> a[i] == a[..w][i] == b[..w][i] == b[i];
      }
    }
  }

  lemma MaskedPrefix(a: Word, w: nat)
    requires w <= |a|
    ensures And(a, Mask(|a|, w))[..w] == a[..w]
    ensures And(And(a, Mask(|a|, w)), Mask(|a|, w)) == And(a, Mask(|a|, w))
  {
  }

  /** The test `goesAfter` makes on two masks compares their widths. */
  lemma MaskTestComparesWidths(bits: nat, v: nat, w: nat)
    requires v <= bits && w <= bits
    ensures And(Mask(bits, v), Mask(bits, w)) == Mask(bits, v) <==> v <= w
    ensures Mask(bits, v) == Mask(bits, w) <==> v == w
  {
    if v > w {
      assert Mask(bits, v)[w] && !And(Mask(bits, v), Mask(bits, w))[w];
      assert !Mask(bits, w)[w];
    } else if v < w {
      assert Mask(bits, w)[v] && !Mask(bits, v)[v];
    }
  }
}
