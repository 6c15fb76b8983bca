/**
 HistStor of base/statistics: the histogram whose bucket vector the grow loops
 fold in place. Each method is tied to the function that models it.
 */
module Histograms {
  import opened HistogramModel

  /** Buckets lo..hi of `now` hold the merged pairs of `was`. */
  ghost predicate PairsMerged(was: seq<int>, now: seq<int>, c: int, lo: nat, hi: nat) {
    |now| == |was| && hi <= |was| && forall j | lo <= j < hi :: now[j] == At(was, 2 * j - c) + At(was, 2 * j - c + 1)
  }

  function Cleared(s: seq<int>, lo: nat, hi: nat): (r: seq<int>)
    ensures |r| == |s|
  {
    seq(|s|, j requires 0 <= j < |s| => if lo <= j < hi then 0 else s[j])
  }

  /** Merging pairs inside a range and clearing the rest is a fold. */
  lemma IsFold(was: seq<int>, mid: seq<int>, c: int, lo: nat, hi: nat)
    requires PairsMerged(was, mid, c, lo, hi) && lo <= hi
    ensures Cleared(Cleared(mid, 0, lo), hi, |mid|) == Fold(was, c, lo, hi)
    ensures lo == 0 ==> Cleared(mid, hi, |mid|) == Fold(was, c, lo, hi)
    ensures hi == |mid| ==> Cleared(mid, 0, lo) == Fold(was, c, lo, hi)
  {
  }

  /** The two sides, folded one after the other, make the outward fold. */
  lemma SidesMakeFold(was: seq<int>, m1: seq<int>, m2: seq<int>, m3: seq<int>, zero: nat, lo: nat, hi: nat)
    requires lo <= zero <= hi <= |was|
    requires PairsMerged(was, m1, zero, lo, zero) && m1[zero..] == was[zero..]
    requires m2 == Cleared(m1, 0, lo)
    requires PairsMerged(m2, m3, zero, zero, hi) && m3[..zero] == m2[..zero]
    ensures Cleared(m3, hi, |m3|) == Fold(was, zero, lo, hi)
  {
    var r, f := Cleared(m3, hi, |m3|), Fold(was, zero, lo, hi);
    forall j | 0 <= j < |was|
      ensures r[j] == f[j]
    {
      if j < zero {
        assert m3[j] == m3[..zero][j] == m2[..zero][j] == m2[j];
      } else if j < hi {
        LateHalfSame(was, m1, m2, zero, lo, 2 * j - zero);
        LateHalfSame(was, m1, m2, zero, lo, 2 * j - zero + 1);
      }
    }
  }

  lemma LateHalfSame(was: seq<int>, m1: seq<int>, m2: seq<int>, zero: nat, lo: nat, k: int)
    requires lo <= zero <= k && |was| == |m1| && zero <= |was| && m1[zero..] == was[zero..] && m2 == Cleared(m1, 0, lo)
    ensures At(m2, k) == At(was, k)
  {
    if k < |was| {
      assert m1[k] == m1[zero..][k - zero] == was[zero..][k - zero] == was[k];
    }
  }

  class HistStor {
    var minBucket: int
    var maxBucket: int
    var bucketSize: int
    var sum: int
    var squares: int
    var samples: int
    const cvec: array<int>

    constructor (buckets: nat)
      ensures View() == Empty(buckets) && fresh(cvec)
    {
      cvec := new int[buckets];
      new;
      Reset();
    }

    ghost function View(): Hist
      reads this, cvec
    {
      Hist(cvec[..], minBucket, maxBucket, bucketSize, sum, squares, samples)
    }

    method Reset()
      modifies this, cvec
      ensures View() == Empty(cvec.Length)
    {
      minBucket, maxBucket, bucketSize := 0, cvec.Length - 1, 1;
      for i := 0 to cvec.Length
        invariant forall j | 0 <= j < i :: cvec[j] == 0
        invariant minBucket == 0 && maxBucket == cvec.Length - 1 && bucketSize == 1
      {
        cvec[i] := 0;
      }
      sum, squares, samples := 0, 0, 0;
    }

    /** Sets buckets lo..hi to zero. */
    method ClearRange(lo: nat, hi: nat)
      requires lo <= hi <= cvec.Length
      modifies cvec
      ensures cvec[..] == Cleared(old(cvec[..]), lo, hi)
    {
      for i := lo to hi
        invariant forall j | 0 <= j < cvec.Length :: cvec[j] == if lo <= j < i then 0 else old(cvec[j])
      {
        cvec[i] := 0;
      }
    }

    /** Merges pairs of buckets downwards: bucket i takes buckets 2i and 2i + 1, for i < half. */
    method FoldPairsUp(half: nat)
      requires half == (cvec.Length + 1) / 2
      modifies cvec
      ensures PairsMerged(old(cvec[..]), cvec[..], 0, 0, half)
    {
      ghost var was := cvec[..];
      var size, pair := cvec.Length, 0;
      for i := 0 to half
        invariant pair == 2 * i
        invariant forall j | 0 <= j < i :: cvec[j] == At(was, 2 * j) + At(was, 2 * j + 1)
        invariant forall j | i <= j < size :: cvec[j] == was[j]
      {
        cvec[i] := cvec[pair];
        if pair + 1 < size {
          cvec[i] := cvec[i] + cvec[pair + 1];
        }
        pair := pair + 2;
      }
      assert pair == size || pair == size + 1;
    }

    method FoldUp()
      modifies cvec
      ensures cvec[..] == Fold(old(cvec[..]), 0, 0, Half(cvec.Length))
    {
      var half := (cvec.Length + 1) / 2;
      FoldPairsUp(half);
      IsFold(old(cvec[..]), cvec[..], 0, 0, half);
      ClearRange(half, cvec.Length);
    }

    method GrowUp()
      modifies this, cvec
      ensures View() == HistogramModel.GrowUp(old(View()))
    {
      FoldUp();
      maxBucket := maxBucket * 2;
      bucketSize := bucketSize * 2;
    }

    /** From the top: bucket i takes buckets 2i - size + 1 and 2i - size, for i >= half. */
    method FoldPairsDown(half: nat)
      requires half == (cvec.Length + 1) / 2
      modifies cvec
      ensures PairsMerged(old(cvec[..]), cvec[..], cvec.Length, half, cvec.Length)
    {
      ghost var was := cvec[..];
      var size := cvec.Length;
      var pair := size - 1;
      var i := size - 1;
      while i >= half
        invariant half - 1 <= i <= size - 1 && pair == 2 * i - size + 1
        invariant forall j | i < j < size :: cvec[j] == At(was, 2 * j - size) + At(was, 2 * j - size + 1)
        invariant forall j | 0 <= j <= i :: cvec[j] == was[j]
      {
        cvec[i] := cvec[pair];
        if pair - 1 >= 0 {
          cvec[i] := cvec[i] + cvec[pair - 1];
        }
        pair := pair - 2;
        i := i - 1;
      }
    }

    method FoldConvert()
      modifies cvec
      ensures cvec[..] == Fold(old(cvec[..]), cvec.Length, Half(cvec.Length), cvec.Length)
    {
      var half := (cvec.Length + 1) / 2;
      FoldPairsDown(half);
      IsFold(old(cvec[..]), cvec[..], cvec.Length, half, cvec.Length);
      ClearRange(0, half);
    }

    method GrowConvert()
      modifies this, cvec
      ensures View() == HistogramModel.GrowConvert(old(View()))
    {
      FoldConvert();
      minBucket := -maxBucket;
      bucketSize := bucketSize * 2;
    }

    /** The lower side folds towards the middle. */
    method FoldLowSide(zero: nat, bottomHalf: nat)
      requires zero == cvec.Length / 2 && bottomHalf == (cvec.Length - zero) / 2
      modifies cvec
      ensures PairsMerged(old(cvec[..]), cvec[..], zero, bottomHalf, zero)
      ensures cvec[..][zero..] == old(cvec[..])[zero..]
    {
      ghost var was := cvec[..];
      var lowPair, i := zero - 1, zero - 1;
      while i >= bottomHalf
        invariant bottomHalf - 1 <= i <= zero - 1 || (i == zero - 1 && i < bottomHalf)
        invariant lowPair == 2 * i - zero + 1
        invariant forall j | i < j < zero :: cvec[j] == At(was, 2 * j - zero) + At(was, 2 * j - zero + 1)
        invariant forall j | 0 <= j <= i || zero <= j < cvec.Length :: cvec[j] == was[j]
      {
        cvec[i] := cvec[lowPair];
        if lowPair - 1 >= 0 {
          cvec[i] := cvec[i] + cvec[lowPair - 1];
        }
        lowPair := lowPair - 2;
        i := i - 1;
      }
      assert cvec.Length > 0 ==> lowPair == 0 || lowPair == -1 || lowPair == -2;
    }

    /** The upper side folds towards the middle. */
    method FoldHighSide(zero: nat, topHalf: nat)
      requires zero == cvec.Length / 2 && topHalf == zero + (cvec.Length - zero + 1) / 2
      modifies cvec
      ensures PairsMerged(old(cvec[..]), cvec[..], zero, zero, topHalf)
      ensures cvec[..][..zero] == old(cvec[..])[..zero]
    {
      ghost var was := cvec[..];
      var size, highPair := cvec.Length, zero;
      for i := zero to topHalf
        invariant highPair == 2 * i - zero
        invariant forall j | zero <= j < i :: cvec[j] == At(was, 2 * j - zero) + At(was, 2 * j - zero + 1)
        invariant forall j | 0 <= j < zero || i <= j < size :: cvec[j] == was[j]
      {
        cvec[i] := cvec[highPair];
        if highPair + 1 < size {
          cvec[i] := cvec[i] + cvec[highPair + 1];
        }
        highPair := highPair + 2;
      }
      assert highPair == size || highPair == size + 1;
    }

    method FoldOut()
      requires cvec.Length > 0
      modifies cvec
      ensures cvec[..] == Fold(old(cvec[..]), Zero(cvec.Length), BottomHalf(cvec.Length), TopHalf(cvec.Length))
    {
      var size := cvec.Length;
      var zero := size / 2;
      var topHalf := zero + (size - zero + 1) / 2;
      var bottomHalf := (size - zero) / 2;
      FoldLowSide(zero, bottomHalf);
      ghost var m1 := cvec[..];
      ClearRange(0, bottomHalf);
      ghost var m2 := cvec[..];
      FoldHighSide(zero, topHalf);
      SidesMakeFold(old(cvec[..]), m1, m2, cvec[..], zero, bottomHalf, topHalf);
      ClearRange(topHalf, size);
    }

    method GrowOut()
      requires cvec.Length > 0
      modifies this, cvec
      ensures View() == HistogramModel.GrowOut(old(View()))
    {
      FoldOut();
      maxBucket := maxBucket * 2;
      minBucket := minBucket * 2;
      bucketSize := bucketSize * 2;
    }

    /** Grows the histogram until `val` has a bucket. */
    method MakeRoom(val: int)
      requires Shape(View())
      modifies this, cvec
      ensures View() == Fit(old(View()), val)
    {
      ghost var h := View();
      ShapeSpans(h);
      GrowKeepsShape(h);
      if val < minBucket {
        if minBucket == 0 {
          GrowConvert();
        }
        ghost var start := View();
        while val < minBucket
          invariant Shape(View()) && View().min < 0 && OutUntilBelow(View(), val) == OutUntilBelow(start, val)
          decreases minBucket - val
        {
          GrowKeepsShape(View());
          GrowOut();
        }
      } else if val >= maxBucket + bucketSize {
        if minBucket == 0 {
          while val >= maxBucket + bucketSize
            invariant Shape(View()) && View().min == 0 && UpUntil(View(), val) == UpUntil(h, val)
            decreases val - maxBucket - bucketSize
          {
            GrowKeepsShape(View());
            GrowUp();
          }
        } else {
          while val >= maxBucket + bucketSize
            invariant Shape(View()) && View().min < 0 && OutUntilAbove(View(), val) == OutUntilAbove(h, val)
            decreases val - maxBucket - bucketSize
          {
            GrowKeepsShape(View());
            GrowOut();
          }
        }
      }
    }

    /** Counts `val` `number` times. */
    method Sample(val: int, number: int)
      requires Shape(View())
      modifies this, cvec
      ensures View() == HistogramModel.Add(old(View()), HistogramModel.Sample(val, number))
      ensures Shape(View())
    {
      ghost var h := View();
      ShapeSpans(h);
      assert minBucket < maxBucket;
      FitMakesRoom(h, val);
      AddKeepsShape(h, HistogramModel.Sample(val, number));
      MakeRoom(val);
      var index := (val - minBucket) / bucketSize;
      assert 0 <= index < cvec.Length;
      cvec[index] := cvec[index] + number;
      sum := sum + val * number;
      squares := squares + val * val * number;
      samples := samples + number;
    }

    /** Doubles the bucket size until it reaches `target`. */
    method RaiseSize(target: int)
      requires Shape(View()) && (minBucket == 0 || bucketSize >= target)
      modifies this, cvec
      ensures View() == RaiseTo(old(View()), target)
    {
      ghost var h := View();
      while bucketSize < target
        invariant Shape(View()) && (View().min == 0 || View().size >= target)
                  && RaiseTo(View(), target) == RaiseTo(h, target)
        decreases target - bucketSize
      {
        GrowKeepsShape(View());
        GrowUp();
      }
    }

    method AddBuckets(hs: HistStor)
      requires hs.cvec.Length == cvec.Length && (hs == this || hs.cvec != cvec)
      modifies cvec
      ensures cvec[..] == Plus(old(cvec[..]), old(hs.cvec[..]))
    {
      for i := 0 to cvec.Length
        invariant forall j | 0 <= j < i :: cvec[j] == old(cvec[j]) + old(hs.cvec[j])
        invariant forall j | i <= j < cvec.Length :: cvec[j] == old(cvec[j]) && hs.cvec[j] == old(hs.cvec[j])
      {
        cvec[i] := cvec[i] + hs.cvec[i];
      }
    }

    /** Adds another histogram of the same number of buckets and the same lower edge. */
    method Add(hs: HistStor)
      requires Mergeable(View(), hs.View()) && (hs == this || hs.cvec != cvec)
      modifies this, cvec, hs, hs.cvec
      ensures View() == Merge(old(View()), old(hs.View()))
      ensures hs != this ==> hs.View() == Met(old(hs.View()), old(View()))
    {
      ghost var a, b := View(), hs.View();
      MetSizes(a, b);
      if a.min != 0 {
        TwoSidedSizesAgree(a, b);
      } else {
        RaiseIgnoresTotals(a, b.size, a.sum + b.sum, a.squares + b.squares, a.samples + b.samples);
      }
      sum := sum + hs.sum;
      squares := squares + hs.squares;
      samples := samples + hs.samples;
      hs.RaiseSize(bucketSize);
      RaiseSize(hs.bucketSize);
      AddBuckets(hs);
    }
  }

  /** A fresh histogram fed a run of samples holds what the run of the model says. */
  method Record(n: nat, xs: seq<HistogramModel.Sample>) returns (h: HistStor)
    requires n >= 2
    ensures h.View() == Run(n, xs) && fresh(h) && fresh(h.cvec)
  {
    h := new HistStor(n);
    for i := 0 to |xs|
      invariant fresh(h) && fresh(h.cvec) && h.View() == Run(n, xs[..i])
    {
      assert xs[..i + 1][..i] == xs[..i];
      h.Sample(xs[i].val, xs[i].number);
    }
    assert xs[..|xs|] == xs;
  }

  /** Two histograms fed non-negative samples apart and then added hold what one fed all of them would. */
  method RecordApart(n: nat, xs: seq<HistogramModel.Sample>, ys: seq<HistogramModel.Sample>) returns (h: HistStor)
    requires n >= 2 && NonNegative(xs) && NonNegative(ys)
    ensures h.View() == Run(n, xs + ys)
  {
    OneSidedIff(n, xs);
    OneSidedIff(n, ys);
    h := Record(n, xs);
    var other := Record(n, ys);
    MergedRunsExact(n, xs, ys);
    h.Add(other);
  }
}
