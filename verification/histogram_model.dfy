/**
 The self-rescaling histogram of base/statistics as a value: its buckets and
 edges, the three ways it folds buckets together when a sample does not fit,
 and what the buckets mean after any run of samples.
 */
module HistogramModel {
  import opened BitNumbers

  datatype Sample = Sample(val: int, number: int)

  datatype Hist = Hist(cvec: seq<int>, min: int, max: int, size: int,
                       sum: int, squares: int, samples: int)

  function Empty(n: nat): Hist {
    Hist(seq(n, _ => 0), 0, n - 1, 1, 0, 0, 0)
  }

  // ----- folding

  function At(s: seq<int>, i: int): int {
    if 0 <= i < |s| then s[i] else 0
  }

  /** Buckets 2i - c and 2i - c + 1 merged into bucket i for lo <= i < hi; the other buckets cleared. */
  function Fold(s: seq<int>, c: int, lo: int, hi: int): (r: seq<int>)
    ensures |r| == |s|
  {
    seq(|s|, i => if lo <= i < hi then At(s, 2 * i - c) + At(s, 2 * i - c + 1) else 0)
  }

  function Half(n: nat): nat { (n + 1) / 2 }
  function Zero(n: nat): nat { n / 2 }
  function TopHalf(n: nat): nat { Zero(n) + (n - Zero(n) + 1) / 2 }
  function BottomHalf(n: nat): nat { (n - Zero(n)) / 2 }

  function GrowUp(h: Hist): Hist {
    h.(cvec := Fold(h.cvec, 0, 0, Half(|h.cvec|)), max := 2 * h.max, size := 2 * h.size)
  }

  function GrowOut(h: Hist): Hist {
    var n := |h.cvec|;
    h.(cvec := Fold(h.cvec, Zero(n), BottomHalf(n), TopHalf(n)),
       max := 2 * h.max, min := 2 * h.min, size := 2 * h.size)
  }

  function GrowConvert(h: Hist): Hist {
    var n := |h.cvec|;
    h.(cvec := Fold(h.cvec, n, Half(n), n), min := -h.max, size := 2 * h.size)
  }

  // ----- the edges

  ghost predicate PowerOfTwo(x: int) {
    x == 1 || (x > 1 && x % 2 == 0 && PowerOfTwo(x / 2))
  }

  /** What every reachable histogram keeps: one-sided from 0, or symmetric about the middle. */
  ghost predicate Shape(h: Hist) {
    && |h.cvec| >= 2 && h.size >= 1 && PowerOfTwo(h.size)
    && if h.min == 0 then h.max == (|h.cvec| - 1) * h.size
       else h.max > 0 && h.min == -h.max && 2 * h.max == (|h.cvec| - 1) * h.size
  }

  /** The edges span exactly the buckets. */
  lemma ShapeSpans(h: Hist)
    requires Shape(h)
    ensures h.max + h.size - h.min == |h.cvec| * h.size
    ensures h.min == 0 || 2 * h.min == -(|h.cvec| - 1) * h.size
    ensures h.min <= 0 < h.max
  {
    var n := |h.cvec|;
    assert (n - 1) * h.size + h.size == n * h.size;
    assert (n - 1) * h.size > 0;
    assert -(n - 1) * h.size == -((n - 1) * h.size);
  }

  lemma DoubledEdges(n: int, s: int)
    ensures (n - 1) * (2 * s) == 2 * ((n - 1) * s)
  {
  }

  lemma GrowKeepsShape(h: Hist)
    requires Shape(h)
    ensures h.min == 0 ==> Shape(GrowUp(h)) && GrowUp(h).min == 0
    ensures h.min == 0 ==> Shape(GrowConvert(h)) && GrowConvert(h).min < 0
    ensures h.min < 0 ==> Shape(GrowOut(h)) && GrowOut(h).min < 0
  {
    ShapeSpans(h);
    DoubledEdges(|h.cvec|, h.size);
    assert (2 * h.size) % 2 == 0 && (2 * h.size) / 2 == h.size;
  }

  // ----- making room and sampling

  function UpUntil(h: Hist, val: int): Hist
    requires Shape(h) && h.min == 0
    decreases val - h.max - h.size
  {
    GrowKeepsShape(h);
    if val >= h.max + h.size then UpUntil(GrowUp(h), val) else h
  }

  function OutUntilBelow(h: Hist, val: int): Hist
    requires Shape(h) && h.min < 0
    decreases h.min - val
  {
    GrowKeepsShape(h);
    if val < h.min then OutUntilBelow(GrowOut(h), val) else h
  }

  function OutUntilAbove(h: Hist, val: int): Hist
    requires Shape(h) && h.min < 0
    decreases val - h.max - h.size
  {
    GrowKeepsShape(h);
    if val >= h.max + h.size then OutUntilAbove(GrowOut(h), val) else h
  }

  function Fit(h: Hist, val: int): Hist
    requires Shape(h)
  {
    ShapeSpans(h);
    GrowKeepsShape(h);
    if val < h.min then OutUntilBelow(if h.min == 0 then GrowConvert(h) else h, val)
    else if val >= h.max + h.size then
      if h.min == 0 then UpUntil(h, val) else OutUntilAbove(h, val)
    else h
  }

  /** The bucket of `val`: floor((val - min) / size). */
  function Index(h: Hist, val: int): int
    requires h.size >= 1
  {
    (val - h.min) / h.size
  }

  ghost predicate Fits(h: Hist, val: int) {
    h.min <= val < h.max + h.size
  }

  lemma {:induction false} UpUntilFits(h: Hist, val: int)
    requires Shape(h) && h.min == 0 && val >= 0
    ensures var r := UpUntil(h, val); Shape(r) && r.min == 0 && Fits(r, val) && |r.cvec| == |h.cvec|
    decreases val - h.max - h.size
  {
    GrowKeepsShape(h);
    if val < h.max + h.size {
    } else {
      UpUntilFits(GrowUp(h), val);
    }
  }

  lemma {:induction false} OutUntilBelowFits(h: Hist, val: int)
    requires Shape(h) && h.min < 0 && val < h.max + h.size
    ensures var r := OutUntilBelow(h, val); Shape(r) && r.min < 0 && Fits(r, val) && |r.cvec| == |h.cvec|
    decreases h.min - val
  {
    GrowKeepsShape(h);
    if val >= h.min {
    } else {
      OutUntilBelowFits(GrowOut(h), val);
    }
  }

  lemma {:induction false} OutUntilAboveFits(h: Hist, val: int)
    requires Shape(h) && h.min < 0 && val >= h.min
    ensures var r := OutUntilAbove(h, val); Shape(r) && r.min < 0 && Fits(r, val) && |r.cvec| == |h.cvec|
    decreases val - h.max - h.size
  {
    GrowKeepsShape(h);
    if val < h.max + h.size {
    } else {
      OutUntilAboveFits(GrowOut(h), val);
    }
  }

  /** The grow loops end, and then the sample has a bucket. */
  lemma FitMakesRoom(h: Hist, val: int)
    requires Shape(h)
    ensures var r := Fit(h, val);
            && Shape(r) && Fits(r, val) && |r.cvec| == |h.cvec| && 0 <= Index(r, val) < |r.cvec|
            && (r.min == 0 <==> h.min == 0 && val >= 0)
            && r.sum == h.sum && r.squares == h.squares && r.samples == h.samples
  {
    ShapeSpans(h);
    GrowKeepsShape(h);
    GrowKeepsTotals(h, val);
    if val < h.min {
      OutUntilBelowFits(if h.min == 0 then GrowConvert(h) else h, val);
    } else if h.min == 0 {
      UpUntilFits(h, val);
    } else {
      OutUntilAboveFits(h, val);
    }
    var r := Fit(h, val);
    ShapeSpans(r);
    IndexInRange(val - r.min, r.size, |r.cvec|);
  }

  lemma IndexInRange(x: int, s: int, n: int)
    requires s >= 1 && 0 <= x < n * s
    ensures 0 <= x / s < n
  {
  }

  ghost predicate SameTotals(a: Hist, b: Hist) {
    a.sum == b.sum && a.squares == b.squares && a.samples == b.samples
  }

  lemma {:induction false} UpKeepsTotals(h: Hist, val: int)
    requires Shape(h) && h.min == 0
    ensures SameTotals(UpUntil(h, val), h)
    decreases val - h.max - h.size
  {
    GrowKeepsShape(h);
    if val < h.max + h.size {
    } else {
      UpKeepsTotals(GrowUp(h), val);
    }
  }

  lemma {:induction false} BelowKeepsTotals(h: Hist, val: int)
    requires Shape(h) && h.min < 0
    ensures SameTotals(OutUntilBelow(h, val), h)
    decreases h.min - val
  {
    GrowKeepsShape(h);
    if val >= h.min {
    } else {
      BelowKeepsTotals(GrowOut(h), val);
    }
  }

  lemma {:induction false} AboveKeepsTotals(h: Hist, val: int)
    requires Shape(h) && h.min < 0
    ensures SameTotals(OutUntilAbove(h, val), h)
    decreases val - h.max - h.size
  {
    GrowKeepsShape(h);
    if val < h.max + h.size {
    } else {
      AboveKeepsTotals(GrowOut(h), val);
    }
  }

  lemma GrowKeepsTotals(h: Hist, val: int)
    requires Shape(h)
    ensures SameTotals(Fit(h, val), h)
  {
    ShapeSpans(h);
    GrowKeepsShape(h);
    if val < h.min {
      BelowKeepsTotals(if h.min == 0 then GrowConvert(h) else h, val);
    } else if h.min == 0 {
      UpKeepsTotals(h, val);
    } else {
      AboveKeepsTotals(h, val);
    }
  }

  function Add(h: Hist, x: Sample): Hist
    requires Shape(h)
  {
    FitMakesRoom(h, x.val);
    var r := Fit(h, x.val);
    var i := Index(r, x.val);
    r.(cvec := r.cvec[i := r.cvec[i] + x.number],
       sum := r.sum + x.val * x.number,
       squares := r.squares + x.val * x.val * x.number,
       samples := r.samples + x.number)
  }

  lemma AddKeepsShape(h: Hist, x: Sample)
    requires Shape(h)
    ensures Shape(Add(h, x)) && |Add(h, x).cvec| == |h.cvec|
  {
    FitMakesRoom(h, x.val);
  }

  /** The histogram of n buckets after a run of samples. */
  ghost function Run(n: nat, xs: seq<Sample>): (h: Hist)
    requires n >= 2
    ensures Shape(h) && |h.cvec| == n
  {
    if xs == [] then Empty(n)
    else
      var h := Run(n, xs[..|xs| - 1]);
      AddKeepsShape(h, xs[|xs| - 1]);
      Add(h, xs[|xs| - 1])
  }

  // ----- what the buckets mean

  /** How many of the samples are attributed to bucket i. */
  ghost function Tally(xs: seq<Sample>, to: seq<int>, i: int): int
    requires |xs| == |to|
  {
    if xs == [] then 0
    else Tally(xs[1..], to[1..], i) + if to[0] == i then xs[0].number else 0
  }

  ghost function Lower(h: Hist, i: int): int {
    h.min + i * h.size
  }

  /**
   Where a sample counted in bucket i may lie: in the bucket, or, once the
   histogram has become two-sided, up to half a bucket below it.
   */
  ghost predicate Near(h: Hist, i: int, v: int) {
    && v < Lower(h, i) + h.size
    && if h.min == 0 then Lower(h, i) <= v else 2 * Lower(h, i) - h.size <= 2 * v
  }

  const LOST := -1

  /** `to` says for each sample which bucket counts it, or that none does any more. */
  ghost predicate Explains(h: Hist, xs: seq<Sample>, to: seq<int>) {
    && |to| == |xs|
    && (forall j | 0 <= j < |to| :: to[j] == LOST || (0 <= to[j] < |h.cvec| && Near(h, to[j], xs[j].val)))
    && (forall i | 0 <= i < |h.cvec| :: h.cvec[i] == Tally(xs, to, i))
  }

  /** Where a fold moves the samples of bucket a. */
  ghost function Moved(a: int, c: int, lo: int, hi: int): int {
    if a != LOST && lo <= (a + c) / 2 < hi then (a + c) / 2 else LOST
  }

  ghost function MoveAll(to: seq<int>, c: int, lo: int, hi: int): (r: seq<int>)
    ensures |r| == |to|
  {
    seq(|to|, j requires 0 <= j < |to| => Moved(to[j], c, lo, hi))
  }

  ghost function TallyAt(xs: seq<Sample>, to: seq<int>, n: nat, i: int): int
    requires |xs| == |to|
  {
    if 0 <= i < n then Tally(xs, to, i) else 0
  }

  lemma {:induction false} TallyMoved(xs: seq<Sample>, to: seq<int>, n: nat, c: nat, lo: int, hi: int, i: int)
    requires |xs| == |to| && 0 <= lo <= i < hi
    requires forall j | 0 <= j < |to| :: to[j] == LOST || 0 <= to[j] < n
    ensures Tally(xs, MoveAll(to, c, lo, hi), i)
            == TallyAt(xs, to, n, 2 * i - c) + TallyAt(xs, to, n, 2 * i - c + 1)
  {
    if xs == [] {
    } else {
      TallyMoved(xs[1..], to[1..], n, c, lo, hi, i);
      assert MoveAll(to, c, lo, hi)[1..] == MoveAll(to[1..], c, lo, hi);
    }
  }

  lemma {:induction false} TallyOutside(xs: seq<Sample>, to: seq<int>, c: nat, lo: int, hi: int, i: int)
    requires |xs| == |to| && i >= 0 && !(lo <= i < hi)
    ensures Tally(xs, MoveAll(to, c, lo, hi), i) == 0
  {
    if xs == [] {
    } else {
      TallyOutside(xs[1..], to[1..], c, lo, hi, i);
      assert MoveAll(to, c, lo, hi)[1..] == MoveAll(to[1..], c, lo, hi);
    }
  }

  /** Folding the buckets is the same as moving the samples. */
  lemma FoldExplained(h: Hist, xs: seq<Sample>, to: seq<int>, c: nat, lo: int, hi: int, r: Hist)
    requires Explains(h, xs, to) && 0 <= lo
    requires r.cvec == Fold(h.cvec, c, lo, hi) && hi <= |h.cvec|
    requires forall a, v | 0 <= a < |h.cvec| && Near(h, a, v) && Moved(a, c, lo, hi) != LOST ::
             Near(r, Moved(a, c, lo, hi), v)
    ensures Explains(r, xs, MoveAll(to, c, lo, hi))
  {
    var n, to' := |h.cvec|, MoveAll(to, c, lo, hi);
    forall i | 0 <= i < n
      ensures r.cvec[i] == Tally(xs, to', i)
    {
      if lo <= i < hi {
        TallyMoved(xs, to, n, c, lo, hi, i);
      } else {
        TallyOutside(xs, to, c, lo, hi, i);
      }
    }
    forall j | 0 <= j < |to'|
      ensures to'[j] == LOST || (0 <= to'[j] < n && Near(r, to'[j], xs[j].val))
    {
      assert to'[j] == Moved(to[j], c, lo, hi);
      assert to[j] == LOST || Near(h, to[j], xs[j].val);
    }
  }

  lemma Products(a: int, s: int, q: int, r: int)
    requires a == 2 * q + r
    ensures a * s == q * (2 * s) + r * s
  {
    assert (2 * q + r) * s == 2 * q * s + r * s;
    assert 2 * q * s == q * (2 * s);
  }

  lemma UpKeepsNear(h: Hist, a: int, v: int)
    requires Shape(h) && h.min == 0 && 0 <= a < |h.cvec| && Near(h, a, v)
    ensures Near(GrowUp(h), Moved(a, 0, 0, Half(|h.cvec|)), v) && Moved(a, 0, 0, Half(|h.cvec|)) != LOST
  {
    var q, r, s := a / 2, a % 2, h.size;
    Products(a, s, q, r);
    assert r * s == if r == 0 then 0 else s;
    assert Moved(a, 0, 0, Half(|h.cvec|)) == q;
  }

  /** A one-sided bucket lands on its own lower edge or on its upper one. */
  lemma ConvertLower(n: int, s: int, a: int)
    requires n >= 2
    ensures var lower := -((n - 1) * s) + (a + n) / 2 * (2 * s);
            lower == if (a + n) % 2 == 0 then a * s + s else a * s
  {
    Products(a + n, s, (a + n) / 2, (a + n) % 2);
    assert (a + n) * s == a * s + n * s;
    assert (n - 1) * s == n * s - s;
  }

  lemma ConvertKeepsNear(h: Hist, a: int, v: int)
    requires Shape(h) && h.min == 0 && Near(h, a, v)
    ensures Near(GrowConvert(h), (a + |h.cvec|) / 2, v)
  {
    var n, s := |h.cvec|, h.size;
    ShapeSpans(h);
    ConvertLower(n, s, a);
  }

  /** Twice the way that the lower edge of two-sided bucket a goes when its count moves to bucket q. */
  lemma OutLower(n: int, s: int, a: int, min: int, q: int)
    requires 2 * min == -((n - 1) * s)
    ensures 2 * (2 * min + q * (2 * s)) - 2 * (min + a * s) == (4 * q - 2 * a - n + 1) * s
  {
    assert (n - 1) * s == n * s - s;
    assert q * (2 * s) == 2 * (q * s);
    assert (4 * q - 2 * a - n + 1) * s == 4 * (q * s) - 2 * (a * s) - n * s + s;
  }

  /** That is half a bucket up or down when n is even, and nothing or one down when n is odd. */
  lemma OutSteps(n: int, a: int, q: int)
    requires q == (a + n / 2) / 2
    ensures 4 * q - 2 * a - n + 1 in if n % 2 == 0 then {1, -1} else {0, -2}
  {
  }

  lemma OutKeepsNear(h: Hist, a: int, v: int)
    requires Shape(h) && h.min < 0 && Near(h, a, v)
    ensures Near(GrowOut(h), (a + Zero(|h.cvec|)) / 2, v)
  {
    var n, s := |h.cvec|, h.size;
    var q := (a + n / 2) / 2;
    OutSteps(n, a, q);
    OutLower(n, s, a, h.min, q);
    var k := 4 * q - 2 * a - n + 1;
    assert k * s in {s, -s, 0, -2 * s};
  }

  lemma GrowUpExplained(h: Hist, xs: seq<Sample>, to: seq<int>)
    requires Shape(h) && h.min == 0 && Explains(h, xs, to)
    ensures Explains(GrowUp(h), xs, MoveAll(to, 0, 0, Half(|h.cvec|)))
    ensures LOST !in to ==> LOST !in MoveAll(to, 0, 0, Half(|h.cvec|))
  {
    var n := |h.cvec|;
    forall a, v | 0 <= a < n && Near(h, a, v)
      ensures Near(GrowUp(h), Moved(a, 0, 0, Half(n)), v)
    {
      UpKeepsNear(h, a, v);
    }
    FoldExplained(h, xs, to, 0, 0, Half(n), GrowUp(h));
  }

  lemma GrowConvertExplained(h: Hist, xs: seq<Sample>, to: seq<int>)
    requires Shape(h) && h.min == 0 && Explains(h, xs, to)
    ensures Explains(GrowConvert(h), xs, MoveAll(to, |h.cvec|, Half(|h.cvec|), |h.cvec|))
    ensures LOST !in to && |h.cvec| % 2 == 0 ==> LOST !in MoveAll(to, |h.cvec|, Half(|h.cvec|), |h.cvec|)
  {
    var n := |h.cvec|;
    forall a, v | 0 <= a < n && Near(h, a, v) && Moved(a, n, Half(n), n) != LOST
      ensures Near(GrowConvert(h), Moved(a, n, Half(n), n), v)
    {
      ConvertKeepsNear(h, a, v);
    }
    FoldExplained(h, xs, to, n, Half(n), n, GrowConvert(h));
  }

  lemma GrowOutExplained(h: Hist, xs: seq<Sample>, to: seq<int>)
    requires Shape(h) && h.min < 0 && Explains(h, xs, to)
    ensures var to' := MoveAll(to, Zero(|h.cvec|), BottomHalf(|h.cvec|), TopHalf(|h.cvec|));
            Explains(GrowOut(h), xs, to') && (LOST !in to && |h.cvec| % 2 == 0 ==> LOST !in to')
  {
    var n := |h.cvec|;
    forall a, v | 0 <= a < n && Near(h, a, v) && Moved(a, Zero(n), BottomHalf(n), TopHalf(n)) != LOST
      ensures Near(GrowOut(h), Moved(a, Zero(n), BottomHalf(n), TopHalf(n)), v)
    {
      OutKeepsNear(h, a, v);
    }
    FoldExplained(h, xs, to, Zero(n), BottomHalf(n), TopHalf(n), GrowOut(h));
  }

  // ----- whole runs

  /** Nothing is lost while the histogram is one-sided, or ever when the number of buckets is even. */
  ghost predicate Kept(h: Hist, to: seq<int>) {
    h.min == 0 || |h.cvec| % 2 == 0 ==> LOST !in to
  }

  lemma {:induction false} UpUntilExplained(h: Hist, val: int, xs: seq<Sample>, to: seq<int>) returns (to': seq<int>)
    requires Shape(h) && h.min == 0 && Explains(h, xs, to) && Kept(h, to)
    ensures Explains(UpUntil(h, val), xs, to') && LOST !in to'
    decreases val - h.max - h.size
  {
    GrowKeepsShape(h);
    if val >= h.max + h.size {
      GrowUpExplained(h, xs, to);
      to' := UpUntilExplained(GrowUp(h), val, xs, MoveAll(to, 0, 0, Half(|h.cvec|)));
    } else {
      to' := to;
    }
  }

  ghost function MovedOut(h: Hist, to: seq<int>): seq<int> {
    MoveAll(to, Zero(|h.cvec|), BottomHalf(|h.cvec|), TopHalf(|h.cvec|))
  }

  lemma {:induction false} BelowExplained(h: Hist, val: int, xs: seq<Sample>, to: seq<int>) returns (to': seq<int>)
    requires Shape(h) && h.min < 0 && Explains(h, xs, to) && Kept(h, to)
    ensures var r := OutUntilBelow(h, val); Explains(r, xs, to') && Kept(r, to')
    decreases h.min - val
  {
    GrowKeepsShape(h);
    if val < h.min {
      GrowOutExplained(h, xs, to);
      to' := BelowExplained(GrowOut(h), val, xs, MovedOut(h, to));
    } else {
      to' := to;
    }
  }

  lemma {:induction false} AboveExplained(h: Hist, val: int, xs: seq<Sample>, to: seq<int>) returns (to': seq<int>)
    requires Shape(h) && h.min < 0 && Explains(h, xs, to) && Kept(h, to)
    ensures var r := OutUntilAbove(h, val); Explains(r, xs, to') && Kept(r, to')
    decreases val - h.max - h.size
  {
    GrowKeepsShape(h);
    if val >= h.max + h.size {
      GrowOutExplained(h, xs, to);
      to' := AboveExplained(GrowOut(h), val, xs, MovedOut(h, to));
    } else {
      to' := to;
    }
  }

  lemma FitExplained(h: Hist, val: int, xs: seq<Sample>, to: seq<int>) returns (to': seq<int>)
    requires Shape(h) && Explains(h, xs, to) && Kept(h, to)
    ensures Explains(Fit(h, val), xs, to') && Kept(Fit(h, val), to')
  {
    ShapeSpans(h);
    GrowKeepsShape(h);
    if val < h.min {
      if h.min == 0 {
        GrowConvertExplained(h, xs, to);
        to' := BelowExplained(GrowConvert(h), val, xs, MoveAll(to, |h.cvec|, Half(|h.cvec|), |h.cvec|));
      } else {
        to' := BelowExplained(h, val, xs, to);
      }
    } else if h.min == 0 {
      to' := UpUntilExplained(h, val, xs, to);
    } else {
      to' := AboveExplained(h, val, xs, to);
    }
  }

  lemma {:induction false} TallyOneMore(xs: seq<Sample>, to: seq<int>, x: Sample, a: int, i: int)
    requires |xs| == |to|
    ensures Tally(xs + [x], to + [a], i) == Tally(xs, to, i) + if a == i then x.number else 0
  {
    if xs == [] {
      assert Tally([x], [a], i) == Tally([], [], i) + if a == i then x.number else 0;
      assert xs + [x] == [x] && to + [a] == [a];
    } else {
      TallyOneMore(xs[1..], to[1..], x, a, i);
      assert (xs + [x])[1..] == xs[1..] + [x] && (to + [a])[1..] == to[1..] + [a];
    }
  }

  lemma NearOwnBucket(h: Hist, v: int)
    requires h.size >= 1
    ensures Near(h, Index(h, v), v)
  {
    var x, s := v - h.min, h.size;
    assert x == x / s * s + x % s;
  }

  /** Counting one more sample, which lies in bucket i, in bucket i. */
  lemma CountExplained(r: Hist, xs: seq<Sample>, to: seq<int>, x: Sample, i: nat, h: Hist)
    requires Explains(r, xs, to) && i < |r.cvec| && Near(r, i, x.val)
    requires h.cvec == r.cvec[i := r.cvec[i] + x.number] && h.min == r.min && h.size == r.size
    ensures Explains(h, xs + [x], to + [i])
  {
    forall k | 0 <= k < |r.cvec|
      ensures Tally(xs + [x], to + [i], k) == h.cvec[k]
    {
      TallyOneMore(xs, to, x, i, k);
    }
    assert forall a, v :: Near(h, a, v) == Near(r, a, v);
  }

  lemma AddExplained(h: Hist, x: Sample, xs: seq<Sample>, to: seq<int>) returns (to': seq<int>)
    requires Shape(h) && Explains(h, xs, to) && Kept(h, to)
    ensures Explains(Add(h, x), xs + [x], to') && Kept(Add(h, x), to')
  {
    var moved := FitExplained(h, x.val, xs, to);
    FitMakesRoom(h, x.val);
    var r := Fit(h, x.val);
    NearOwnBucket(r, x.val);
    to' := moved + [Index(r, x.val)];
    CountExplained(r, xs, moved, x, Index(r, x.val), Add(h, x));
  }

  /**
   In every run each sample is counted in a bucket it lies in or half a bucket
   above; with an even number of buckets, or no negative sample, none is lost.
   */
  lemma {:induction false} RunExplained(n: nat, xs: seq<Sample>) returns (to: seq<int>)
    requires n >= 2
    ensures Explains(Run(n, xs), xs, to) && Kept(Run(n, xs), to)
  {
    if xs == [] {
      to := [];
    } else {
      var before := xs[..|xs| - 1];
      to := RunExplained(n, before);
      to := AddExplained(Run(n, before), xs[|xs| - 1], before, to);
      assert before + [xs[|xs| - 1]] == xs;
    }
  }

  // ----- runs without negative samples are exact

  ghost function InBucket(xs: seq<Sample>, size: int, i: int): int
    requires size >= 1
  {
    if xs == [] then 0
    else InBucket(xs[1..], size, i) + if xs[0].val / size == i then xs[0].number else 0
  }

  ghost predicate NonNegative(xs: seq<Sample>) {
    forall j | 0 <= j < |xs| :: xs[j].val >= 0
  }

  /** A histogram stays one-sided exactly as long as no sample is negative. */
  lemma {:induction false} OneSidedIff(n: nat, xs: seq<Sample>)
    requires n >= 2
    ensures Run(n, xs).min == 0 <==> NonNegative(xs)
  {
    if xs == [] {
    } else {
      var before := xs[..|xs| - 1];
      OneSidedIff(n, before);
      FitMakesRoom(Run(n, before), xs[|xs| - 1].val);
      assert NonNegative(xs) <==> NonNegative(before) && xs[|xs| - 1].val >= 0;
    }
  }

  lemma {:induction false} TallyIsInBucket(xs: seq<Sample>, to: seq<int>, size: int, i: int)
    requires |xs| == |to| && size >= 1
    requires forall j | 0 <= j < |xs| :: to[j] * size <= xs[j].val < to[j] * size + size
    ensures Tally(xs, to, i) == InBucket(xs, size, i)
  {
    if xs == [] {
    } else {
      QuotientIs(xs[0].val, size, to[0]);
      TallyIsInBucket(xs[1..], to[1..], size, i);
    }
  }

  /** With one-sided buckets every bucket holds exactly the samples whose quotient it is. */
  lemma OneSidedExact(h: Hist, xs: seq<Sample>, to: seq<int>, i: nat)
    requires h.min == 0 && h.size >= 1 && Explains(h, xs, to) && LOST !in to && i < |h.cvec|
    ensures h.cvec[i] == InBucket(xs, h.size, i)
  {
    forall j | 0 <= j < |xs|
      ensures to[j] * h.size <= xs[j].val < to[j] * h.size + h.size
    {
      assert to[j] in to;
    }
    TallyIsInBucket(xs, to, h.size, i);
  }

  /** For any number of buckets, bucket i of a non-negative run counts the samples with val / size == i. */
  lemma NonNegativeRunExact(n: nat, xs: seq<Sample>, i: nat)
    requires n >= 2 && i < n && NonNegative(xs)
    ensures var h := Run(n, xs); h.min == 0 && h.cvec[i] == InBucket(xs, h.size, i)
  {
    OneSidedIff(n, xs);
    var to := RunExplained(n, xs);
    OneSidedExact(Run(n, xs), xs, to, i);
  }

  // ----- conservation

  ghost function Sum(s: seq<int>): int {
    if s == [] then 0 else s[0] + Sum(s[1..])
  }

  ghost function Total(xs: seq<Sample>): int {
    if xs == [] then 0 else Total(xs[..|xs| - 1]) + xs[|xs| - 1].number
  }

  ghost function ValueSum(xs: seq<Sample>): int {
    if xs == [] then 0 else ValueSum(xs[..|xs| - 1]) + xs[|xs| - 1].val * xs[|xs| - 1].number
  }

  ghost function SquareSum(xs: seq<Sample>): int {
    if xs == [] then 0
    else SquareSum(xs[..|xs| - 1]) + xs[|xs| - 1].val * xs[|xs| - 1].val * xs[|xs| - 1].number
  }

  ghost function Tallies(xs: seq<Sample>, to: seq<int>, from: nat, n: nat): seq<int>
    requires |xs| == |to| && from <= n
    decreases n - from
  {
    if from == n then [] else [Tally(xs, to, from)] + Tallies(xs, to, from + 1, n)
  }

  lemma {:induction false} TalliesAre(xs: seq<Sample>, to: seq<int>, from: nat, cvec: seq<int>)
    requires |xs| == |to| && from <= |cvec|
    requires forall i | 0 <= i < |cvec| :: cvec[i] == Tally(xs, to, i)
    ensures Tallies(xs, to, from, |cvec|) == cvec[from..]
    decreases |cvec| - from
  {
    if from == |cvec| {
    } else {
      TalliesAre(xs, to, from + 1, cvec);
    }
  }

  lemma {:induction false} OneMoreTally(xs: seq<Sample>, to: seq<int>, x: Sample, a: int, from: nat, n: nat)
    requires |xs| == |to| && from <= n
    ensures Sum(Tallies(xs + [x], to + [a], from, n))
            == Sum(Tallies(xs, to, from, n)) + if from <= a < n then x.number else 0
    decreases n - from
  {
    if from == n {
    } else {
      TallyOneMore(xs, to, x, a, from);
      OneMoreTally(xs, to, x, a, from + 1, n);
    }
  }

  lemma {:induction false} TalliesAddUp(xs: seq<Sample>, to: seq<int>, n: nat)
    requires |xs| == |to| && forall j | 0 <= j < |to| :: 0 <= to[j] < n
    ensures Sum(Tallies(xs, to, 0, n)) == Total(xs)
  {
    if xs == [] {
      NoTallies(0, n);
      assert to == [];
    } else {
      var k := |xs| - 1;
      TalliesAddUp(xs[..k], to[..k], n);
      OneMoreTally(xs[..k], to[..k], xs[k], to[k], 0, n);
      assert xs == xs[..k] + [xs[k]] && to == to[..k] + [to[k]];
    }
  }

  lemma {:induction false} NoTallies(from: nat, n: nat)
    requires from <= n
    ensures Sum(Tallies([], [], from, n)) == 0
    decreases n - from
  {
    if from == n {
    } else {
      NoTallies(from + 1, n);
    }
  }

  lemma ExplainedSum(h: Hist, xs: seq<Sample>, to: seq<int>)
    requires Explains(h, xs, to) && LOST !in to
    ensures Sum(h.cvec) == Total(xs)
  {
    TalliesAre(xs, to, 0, h.cvec);
    assert h.cvec[0..] == h.cvec;
    assert forall j | 0 <= j < |to| :: to[j] in to;
    TalliesAddUp(xs, to, |h.cvec|);
  }

  /** The totals are those of the samples, however the buckets were folded. */
  lemma {:induction false} RunTotals(n: nat, xs: seq<Sample>)
    requires n >= 2
    ensures var h := Run(n, xs); h.samples == Total(xs) && h.sum == ValueSum(xs) && h.squares == SquareSum(xs)
  {
    if xs == [] {
    } else {
      RunTotals(n, xs[..|xs| - 1]);
      FitMakesRoom(Run(n, xs[..|xs| - 1]), xs[|xs| - 1].val);
    }
  }

  /** With an even number of buckets the buckets always add up to `samples`. */
  lemma EvenRunConserves(n: nat, xs: seq<Sample>)
    requires n >= 2 && n % 2 == 0
    ensures Sum(Run(n, xs).cvec) == Run(n, xs).samples
  {
    var to := RunExplained(n, xs);
    ExplainedSum(Run(n, xs), xs, to);
    RunTotals(n, xs);
  }

  /** With an odd number, the samples 0 and -1 leave one bucket count for two samples. */
  lemma OddRunLoses(n: nat)
    requires n >= 3 && n % 2 == 1
    ensures var h := Run(n, [Sample(0, 1), Sample(-1, 1)]); h.samples == 2 && Sum(h.cvec) == 1
  {
    var x, y := Sample(0, 1), Sample(-1, 1);
    var h0, h1 := Empty(n), Add(Empty(n), x);
    assert [x, y][..1] == [x] && [x][..0] == [];
    assert Run(n, [x]) == h1;
    assert h1 == h0.(cvec := h0.cvec[0 := 1], samples := 1);
    var h2 := GrowConvert(h1);
    assert forall i | 0 <= i < n :: h2.cvec[i] == 0;
    assert h2.min == 1 - n <= -1;
    assert Fit(h1, -1) == h2;
    var i := Index(h2, -1);
    FitMakesRoom(h1, -1);
    assert Run(n, [x, y]).cvec == h2.cvec[i := 1];
    SumOfOne(h2.cvec[i := 1], i);
  }

  lemma {:induction false} SumOfOne(s: seq<int>, i: nat)
    requires i < |s| && s[i] == 1 && forall j | 0 <= j < |s| && j != i :: s[j] == 0
    ensures Sum(s) == 1
  {
    if i == 0 {
      SumOfZeros(s[1..]);
    } else {
      SumOfOne(s[1..], i - 1);
    }
  }

  lemma {:induction false} SumOfZeros(s: seq<int>)
    requires forall j | 0 <= j < |s| :: s[j] == 0
    ensures Sum(s) == 0
  {
    if s == [] {
    } else {
      SumOfZeros(s[1..]);
    }
  }

  /** The sum over a range of positions, those outside the buckets counting as 0. */
  ghost function SumRange(s: seq<int>, lo: int, hi: int): int
    decreases if hi <= lo then 0 else hi - lo
  {
    if hi <= lo then 0 else SumRange(s, lo, hi - 1) + At(s, hi - 1)
  }

  lemma {:induction false} SumOfFront(s: seq<int>, k: nat)
    requires k <= |s|
    ensures SumRange(s, 0, k) == Sum(s[..k])
  {
    if k == 0 {
    } else {
      SumOfFront(s, k - 1);
      SumSnoc(s[..k - 1], s[k - 1]);
      assert s[..k - 1] + [s[k - 1]] == s[..k];
    }
  }

  lemma {:induction false} SumSnoc(s: seq<int>, x: int)
    ensures Sum(s + [x]) == Sum(s) + x
  {
    if s == [] {
      assert s + [x] == [x];
    } else {
      SumSnoc(s[1..], x);
      assert (s + [x])[1..] == s[1..] + [x];
    }
  }

  /** Folded buckets add up to the buckets that went into them. */
  lemma {:induction false} FoldSum(s: seq<int>, c: int, lo: nat, hi: nat, k: nat)
    requires lo <= hi <= |s| && k <= |s|
    ensures SumRange(Fold(s, c, lo, hi), 0, k)
            == SumRange(s, 2 * lo - c, 2 * (if k < lo then lo else if k > hi then hi else k) - c)
  {
    if k == 0 {
    } else {
      FoldSum(s, c, lo, hi, k - 1);
    }
  }

  lemma {:induction false} WholeRange(s: seq<int>, lo: int, hi: int)
    requires lo <= 1 && hi >= |s| >= 1
    ensures SumRange(s, lo, hi) == Sum(s) - (if lo == 1 then s[0] else 0)
    decreases if hi <= lo then 0 else hi - lo
  {
    if hi > |s| {
      WholeRange(s, lo, hi - 1);
    } else if lo < 0 {
      NothingBelow(s, lo, hi);
      WholeRange(s, 0, hi);
    } else {
      SumOfFront(s, |s|);
      assert s[..|s|] == s;
      if lo == 1 {
        WithoutFirst(s, hi);
      }
    }
  }

  lemma {:induction false} NothingBelow(s: seq<int>, lo: int, hi: int)
    requires lo < 0 <= hi
    ensures SumRange(s, lo, hi) == SumRange(s, 0, hi)
    decreases if hi <= lo then 0 else hi - lo
  {
    if hi == 0 {
      NothingThere(s, lo, 0);
    } else {
      NothingBelow(s, lo, hi - 1);
    }
  }

  lemma {:induction false} NothingThere(s: seq<int>, lo: int, hi: int)
    requires hi <= 0
    ensures SumRange(s, lo, hi) == 0
    decreases if hi <= lo then 0 else hi - lo
  {
    if hi <= lo {
    } else {
      NothingThere(s, lo, hi - 1);
    }
  }

  lemma {:induction false} WithoutFirst(s: seq<int>, hi: nat)
    requires 1 <= hi <= |s|
    ensures SumRange(s, 1, hi) == SumRange(s, 0, hi) - s[0]
  {
    if hi == 1 {
    } else {
      WithoutFirst(s, hi - 1);
    }
  }

  /**
   What growing loses: nothing when it doubles upwards; the lowest bucket when it
   goes two-sided with an odd count; and when it grows out, the lowest bucket if
   the count is 3 modulo 4.
   */
  lemma GrowLoses(h: Hist)
    requires |h.cvec| >= 2
    ensures var n, s := |h.cvec|, Sum(h.cvec);
            && Sum(GrowUp(h).cvec) == s
            && Sum(GrowConvert(h).cvec) == s - (if n % 2 == 1 then h.cvec[0] else 0)
            && Sum(GrowOut(h).cvec) == s - (if n % 4 == 3 then h.cvec[0] else 0)
  {
    UpLoses(h);
    ConvertLoses(h);
    OutLoses(h);
  }

  lemma UpLoses(h: Hist)
    requires |h.cvec| >= 2
    ensures Sum(GrowUp(h).cvec) == Sum(h.cvec)
  {
    FoldedSum(h.cvec, 0, 0, Half(|h.cvec|));
  }

  lemma ConvertLoses(h: Hist)
    requires |h.cvec| >= 2
    ensures Sum(GrowConvert(h).cvec) == Sum(h.cvec) - (if |h.cvec| % 2 == 1 then h.cvec[0] else 0)
  {
    var n := |h.cvec|;
    FoldedSum(h.cvec, n, Half(n), n);
  }

  lemma OutLoses(h: Hist)
    requires |h.cvec| >= 2
    ensures Sum(GrowOut(h).cvec) == Sum(h.cvec) - (if |h.cvec| % 4 == 3 then h.cvec[0] else 0)
  {
    var n := |h.cvec|;
    OutRange(n);
    FoldedSum(h.cvec, Zero(n), BottomHalf(n), TopHalf(n));
  }

  lemma OutRange(n: nat)
    requires n >= 2
    ensures BottomHalf(n) <= TopHalf(n) <= n && 2 * TopHalf(n) - Zero(n) >= n
    ensures 2 * BottomHalf(n) - Zero(n) <= 1 && (2 * BottomHalf(n) - Zero(n) == 1 <==> n % 4 == 3)
  {
    var m := n / 4;
    assert n == 4 * m || n == 4 * m + 1 || n == 4 * m + 2 || n == 4 * m + 3;
  }

  lemma FoldedSum(s: seq<int>, c: int, lo: nat, hi: nat)
    requires |s| >= 1 && lo <= hi <= |s| && 2 * lo - c <= 1 && 2 * hi - c >= |s|
    ensures Sum(Fold(s, c, lo, hi)) == Sum(s) - (if 2 * lo - c == 1 then s[0] else 0)
  {
    var r := Fold(s, c, lo, hi);
    FoldSum(s, c, lo, hi, |s|);
    SumOfFront(r, |r|);
    assert r[..|r|] == r;
    WholeRange(s, 2 * lo - c, 2 * hi - c);
  }

  /** Exactly the even bucket counts conserve every run. */
  lemma ConservesIffEven(n: nat)
    requires n >= 2
    ensures (forall xs: seq<Sample> :: Sum(Run(n, xs).cvec) == Run(n, xs).samples) <==> n % 2 == 0
  {
    if n % 2 == 0 {
      forall xs: seq<Sample>
        ensures Sum(Run(n, xs).cvec) == Run(n, xs).samples
      {
        EvenRunConserves(n, xs);
      }
    } else {
      OddRunLoses(n);
    }
  }

  // ----- merging two histograms

  function RaiseTo(h: Hist, size: int): Hist
    requires Shape(h) && (h.min == 0 || h.size >= size)
    decreases size - h.size
  {
    GrowKeepsShape(h);
    if h.size < size then RaiseTo(GrowUp(h), size) else h
  }

  function Plus(a: seq<int>, b: seq<int>): (r: seq<int>)
    requires |a| == |b|
    ensures |r| == |a|
  {
    seq(|a|, i requires 0 <= i < |a| => a[i] + b[i])
  }

  lemma {:induction false} PowersMeet(x: int, y: int)
    requires PowerOfTwo(x) && PowerOfTwo(y) && x < y
    ensures 2 * x <= y
    decreases y
  {
    if x == 1 {
    } else {
      PowersMeet(x / 2, y / 2);
    }
  }

  /** Doubling one size reaches the other exactly, and only one-sided histograms ever have to. */
  lemma {:induction false} RaiseToMeets(h: Hist, size: int)
    requires Shape(h) && PowerOfTwo(size) && (h.min == 0 || h.size >= size)
    ensures var r := RaiseTo(h, size);
            && Shape(r) && r.size == (if h.size < size then size else h.size) && r.min == h.min
            && |r.cvec| == |h.cvec| && SameTotals(r, h)
    decreases size - h.size
  {
    GrowKeepsShape(h);
    if h.size >= size {
    } else {
      PowersMeet(h.size, size);
      RaiseToMeets(GrowUp(h), size);
    }
  }

  ghost predicate Mergeable(a: Hist, b: Hist) {
    Shape(a) && Shape(b) && |a.cvec| == |b.cvec| && a.min == b.min
  }

  /** Two-sided histograms with equal lower edges already have equal bucket sizes. */
  lemma TwoSidedSizesAgree(a: Hist, b: Hist)
    requires Mergeable(a, b) && a.min != 0
    ensures a.size == b.size
  {
    var k := |a.cvec| - 1;
    assert k * a.size == k * b.size;
    assert k * (a.size - b.size) == 0;
  }

  /** b brought up to the bucket size of a, where it has to be. */
  function Met(b: Hist, a: Hist): Hist
    requires Mergeable(a, b)
  {
    if b.min == 0 then RaiseTo(b, a.size) else b
  }

  lemma MetSizes(a: Hist, b: Hist)
    requires Mergeable(a, b)
    ensures var a', b' := Met(a, b), Met(b, a);
            && Shape(a') && Shape(b') && a'.min == b'.min == a.min && |a'.cvec| == |b'.cvec| == |a.cvec|
            && a'.size == b'.size == (if a.size < b.size then b.size else a.size)
            && SameTotals(a', a) && SameTotals(b', b)
  {
    if a.min != 0 {
      TwoSidedSizesAgree(a, b);
    } else {
      RaiseToMeets(b, a.size);
      RaiseToMeets(a, b.size);
    }
  }

  function Merge(a: Hist, b: Hist): Hist
    requires Mergeable(a, b)
  {
    MetSizes(a, b);
    MergeRaised(a, b, Met(a, b), Met(b, a))
  }

  /** The totals ride along unchanged when the buckets are raised. */
  lemma {:induction false} RaiseIgnoresTotals(h: Hist, size: int, sum: int, squares: int, samples: int)
    requires Shape(h) && (h.min == 0 || h.size >= size)
    ensures Shape(h.(sum := sum, squares := squares, samples := samples))
    ensures RaiseTo(h.(sum := sum, squares := squares, samples := samples), size)
            == RaiseTo(h, size).(sum := sum, squares := squares, samples := samples)
    decreases size - h.size
  {
    GrowKeepsShape(h);
    if h.size >= size {
    } else {
      RaiseIgnoresTotals(GrowUp(h), size, sum, squares, samples);
    }
  }

  function MergeRaised(a: Hist, b: Hist, a': Hist, b': Hist): Hist
    requires |a'.cvec| == |b'.cvec|
  {
    a'.(cvec := Plus(a'.cvec, b'.cvec),
        sum := a.sum + b.sum, squares := a.squares + b.squares, samples := a.samples + b.samples)
  }

  lemma {:induction false} RaiseToExplained(h: Hist, size: int, xs: seq<Sample>, to: seq<int>) returns (to': seq<int>)
    requires Shape(h) && (h.min == 0 || h.size >= size) && Explains(h, xs, to) && Kept(h, to)
    ensures Explains(RaiseTo(h, size), xs, to') && Kept(RaiseTo(h, size), to')
    decreases size - h.size
  {
    GrowKeepsShape(h);
    if h.size < size {
      GrowUpExplained(h, xs, to);
      to' := RaiseToExplained(GrowUp(h), size, xs, MoveAll(to, 0, 0, Half(|h.cvec|)));
    } else {
      to' := to;
    }
  }

  lemma {:induction false} TallyOfBoth(xs: seq<Sample>, to: seq<int>, ys: seq<Sample>, uo: seq<int>, i: int)
    requires |xs| == |to| && |ys| == |uo|
    ensures Tally(xs + ys, to + uo, i) == Tally(xs, to, i) + Tally(ys, uo, i)
  {
    if xs == [] {
      assert xs + ys == ys && to + uo == uo;
    } else {
      TallyOfBoth(xs[1..], to[1..], ys, uo, i);
      assert (xs + ys)[1..] == xs[1..] + ys && (to + uo)[1..] == to[1..] + uo;
    }
  }

  lemma PlusExplained(a: Hist, b: Hist, h: Hist, xs: seq<Sample>, to: seq<int>, ys: seq<Sample>, uo: seq<int>)
    requires Explains(a, xs, to) && Explains(b, ys, uo) && |a.cvec| == |b.cvec|
    requires a.min == b.min == h.min && a.size == b.size == h.size && h.cvec == Plus(a.cvec, b.cvec)
    ensures Explains(h, xs + ys, to + uo)
  {
    forall i | 0 <= i < |h.cvec|
      ensures h.cvec[i] == Tally(xs + ys, to + uo, i)
    {
      TallyOfBoth(xs, to, ys, uo, i);
    }
    assert forall i, v :: Near(h, i, v) == Near(a, i, v) && Near(h, i, v) == Near(b, i, v);
  }

  /** Merging explains the samples of both, and loses nothing when they lost nothing. */
  lemma MergeExplained(a: Hist, b: Hist, xs: seq<Sample>, to: seq<int>, ys: seq<Sample>, uo: seq<int>)
    returns (both: seq<int>)
    requires Mergeable(a, b) && Explains(a, xs, to) && Kept(a, to) && Explains(b, ys, uo) && Kept(b, uo)
    ensures var h := Merge(a, b);
            && Shape(h) && h.min == a.min && |h.cvec| == |a.cvec|
            && h.size == (if a.size < b.size then b.size else a.size)
            && Explains(h, xs + ys, both) && Kept(h, both)
  {
    MetSizes(a, b);
    var to', uo' := to, uo;
    if a.min == 0 {
      to' := RaiseToExplained(a, b.size, xs, to);
      uo' := RaiseToExplained(b, a.size, ys, uo);
    }
    both := to' + uo';
    PlusExplained(Met(a, b), Met(b, a), Merge(a, b), xs, to', ys, uo');
  }

  lemma MergedBucket(n: nat, xs: seq<Sample>, ys: seq<Sample>, i: nat)
    requires n >= 2 && i < n && Run(n, xs).min == 0 && Run(n, ys).min == 0
    ensures var h := Merge(Run(n, xs), Run(n, ys));
            |h.cvec| == n && h.size >= 1 && h.cvec[i] == InBucket(xs + ys, h.size, i)
  {
    var to := RunExplained(n, xs);
    var uo := RunExplained(n, ys);
    var both := MergeExplained(Run(n, xs), Run(n, ys), xs, to, ys, uo);
    OneSidedExact(Merge(Run(n, xs), Run(n, ys)), xs + ys, both, i);
  }

  // ----- the bucket size of a one-sided run

  /** All samples lie below n buckets of this size, and half the size would not do. */
  ghost predicate Tight(n: nat, size: int, xs: seq<Sample>) {
    && (forall j | 0 <= j < |xs| :: xs[j].val < n * size)
    && (size == 1 || exists j | 0 <= j < |xs| :: 2 * xs[j].val >= n * size)
  }

  lemma OneSidedTop(h: Hist)
    requires Shape(h) && h.min == 0
    ensures h.max + h.size == |h.cvec| * h.size && h.max == (|h.cvec| - 1) * h.size
  {
    ShapeSpans(h);
  }

  lemma {:induction false} UpUntilTight(h: Hist, val: int)
    requires Shape(h) && h.min == 0
    ensures var r := UpUntil(h, val); r.size >= h.size && (r.size == h.size || 2 * val >= |h.cvec| * r.size)
    decreases val - h.max - h.size
  {
    if val < h.max + h.size {
    } else {
      GrowKeepsShape(h);
      OneSidedTop(h);
      TwiceAsWide(|h.cvec|, h.size, val);
      UpUntilTight(GrowUp(h), val);
    }
  }

  lemma TwiceAsWide(n: nat, s: int, val: int)
    requires val >= n * s
    ensures 2 * val >= n * (2 * s)
  {
    assert n * (2 * s) == 2 * (n * s);
  }

  lemma ScaleUp(n: nat, s: int, t: int)
    requires s <= t
    ensures n * s <= n * t
  {
  }

  /** Doubling stops as soon as the sample fits, so the size is tight for the samples so far. */
  lemma FitTight(h: Hist, xs: seq<Sample>, x: Sample)
    requires Shape(h) && h.min == 0 && x.val >= 0 && Tight(|h.cvec|, h.size, xs)
    ensures Tight(|h.cvec|, Fit(h, x.val).size, xs + [x])
  {
    var n, r, all := |h.cvec|, Fit(h, x.val), xs + [x];
    FitMakesRoom(h, x.val);
    UpUntilTight(h, x.val);
    OneSidedTop(r);
    ScaleUp(n, h.size, r.size);
    assert all[|xs|] == x;
    forall j | 0 <= j < |all|
      ensures all[j].val < n * r.size
    {
      assert j < |xs| ==> all[j] == xs[j];
    }
    if r.size == h.size && h.size != 1 {
      var j :| 0 <= j < |xs| && 2 * xs[j].val >= n * h.size;
      assert all[j] == xs[j];
    }
  }

  lemma {:induction false} RunTight(n: nat, xs: seq<Sample>)
    requires n >= 2 && NonNegative(xs)
    ensures Tight(n, Run(n, xs).size, xs)
  {
    if xs == [] {
    } else {
      var before, x := xs[..|xs| - 1], xs[|xs| - 1];
      RunTight(n, before);
      OneSidedIff(n, before);
      FitTight(Run(n, before), before, x);
      assert before + [x] == xs;
    }
  }

  lemma HalfIsTooSmall(n: nat, s: int, t: int, v: int)
    requires PowerOfTwo(s) && PowerOfTwo(t) && s < t && 2 * v >= n * t
    ensures v >= n * s
  {
    PowersMeet(s, t);
    ScaleUp(n, 2 * s, t);
    assert n * (2 * s) == 2 * (n * s);
  }

  /** No power of two below a tight one is tight, so there is only one. */
  lemma TightIsUnique(n: nat, s: int, t: int, xs: seq<Sample>)
    requires PowerOfTwo(s) && PowerOfTwo(t) && Tight(n, s, xs) && Tight(n, t, xs)
    ensures s >= t
  {
    if s < t {
      var j :| 0 <= j < |xs| && 2 * xs[j].val >= n * t;
      HalfIsTooSmall(n, s, t, xs[j].val);
    }
  }

  /** The larger of two tight sizes is tight for the samples of both. */
  lemma TightForBoth(n: nat, s: int, xs: seq<Sample>, t: int, ys: seq<Sample>)
    requires Tight(n, s, xs) && Tight(n, t, ys) && s <= t
    ensures Tight(n, t, xs + ys) && Tight(n, t, ys + xs)
  {
    ScaleUp(n, s, t);
    if t != 1 {
      var j :| 0 <= j < |ys| && 2 * ys[j].val >= n * t;
      assert (xs + ys)[|xs| + j] == ys[j] && (ys + xs)[j] == ys[j];
    }
  }

  lemma {:induction false} TotalsOfBoth(xs: seq<Sample>, ys: seq<Sample>)
    ensures Total(xs + ys) == Total(xs) + Total(ys)
    ensures ValueSum(xs + ys) == ValueSum(xs) + ValueSum(ys)
    ensures SquareSum(xs + ys) == SquareSum(xs) + SquareSum(ys)
  {
    if ys == [] {
      assert xs + ys == xs;
    } else {
      var all, before := xs + ys, ys[..|ys| - 1];
      TotalsOfBoth(xs, before);
      assert all[..|all| - 1] == xs + before && all[|all| - 1] == ys[|ys| - 1];
    }
  }

  /** The merge has the bucket size, and so the edges, that all samples together call for. */
  lemma MergedSize(n: nat, xs: seq<Sample>, ys: seq<Sample>)
    requires n >= 2 && NonNegative(xs) && NonNegative(ys)
    ensures Run(n, xs).min == 0 && Run(n, ys).min == 0
    ensures Merge(Run(n, xs), Run(n, ys)).size == Run(n, xs + ys).size
  {
    OneSidedIff(n, xs);
    OneSidedIff(n, ys);
    var a, b := Run(n, xs), Run(n, ys);
    MetSizes(a, b);
    RunTight(n, xs);
    RunTight(n, ys);
    RunTight(n, xs + ys);
    if a.size <= b.size {
      TightForBoth(n, a.size, xs, b.size, ys);
    } else {
      TightForBoth(n, b.size, ys, a.size, xs);
    }
    var s, t := Merge(a, b).size, Run(n, xs + ys).size;
    TightIsUnique(n, s, t, xs + ys);
    TightIsUnique(n, t, s, xs + ys);
  }

  lemma MergedEdges(n: nat, xs: seq<Sample>, ys: seq<Sample>)
    requires n >= 2 && NonNegative(xs) && NonNegative(ys)
    ensures Run(n, xs).min == 0 && Run(n, ys).min == 0
    ensures var h, all := Merge(Run(n, xs), Run(n, ys)), Run(n, xs + ys);
            h.min == all.min && h.max == all.max && h.size == all.size && |h.cvec| == n
  {
    MergedSize(n, xs, ys);
    MetSizes(Run(n, xs), Run(n, ys));
    OneSidedIff(n, xs + ys);
    OneSidedTop(Merge(Run(n, xs), Run(n, ys)));
    OneSidedTop(Run(n, xs + ys));
  }

  lemma MergedBuckets(n: nat, xs: seq<Sample>, ys: seq<Sample>)
    requires n >= 2 && NonNegative(xs) && NonNegative(ys)
    ensures Run(n, xs).min == 0 && Run(n, ys).min == 0
    ensures Merge(Run(n, xs), Run(n, ys)).cvec == Run(n, xs + ys).cvec
  {
    MergedEdges(n, xs, ys);
    var h, all := Merge(Run(n, xs), Run(n, ys)), Run(n, xs + ys);
    forall i | 0 <= i < n
      ensures h.cvec[i] == all.cvec[i]
    {
      MergedBucket(n, xs, ys, i);
      NonNegativeRunExact(n, xs + ys, i);
    }
  }

  lemma MergedTotals(n: nat, xs: seq<Sample>, ys: seq<Sample>)
    requires n >= 2 && Run(n, xs).min == 0 && Run(n, ys).min == 0
    ensures SameTotals(Merge(Run(n, xs), Run(n, ys)), Run(n, xs + ys))
  {
    RunTotals(n, xs);
    RunTotals(n, ys);
    RunTotals(n, xs + ys);
    TotalsOfBoth(xs, ys);
  }

  /** Merging the histograms of two one-sided runs gives the histogram of all their samples, field for field. */
  lemma MergedRunsExact(n: nat, xs: seq<Sample>, ys: seq<Sample>)
    requires n >= 2 && Run(n, xs).min == 0 && Run(n, ys).min == 0
    ensures Merge(Run(n, xs), Run(n, ys)) == Run(n, xs + ys)
  {
    OneSidedIff(n, xs);
    OneSidedIff(n, ys);
    OneSidedIff(n, xs + ys);
    MergedEdges(n, xs, ys);
    MergedBuckets(n, xs, ys);
    MergedTotals(n, xs, ys);
  }

  // ----- the bucket size of any run

  /** Twice the value lies between the edges of n two-sided buckets of a size, taken twice too. */
  ghost predicate Wide(n: nat, size: int, val: int) {
    -((n - 1) * size) <= 2 * val < (n + 1) * size
  }

  lemma WideIsFit(h: Hist, val: int)
    requires Shape(h) && h.min < 0
    ensures Fits(h, val) <==> Wide(|h.cvec|, h.size, val)
  {
    var n := |h.cvec|;
    assert (n + 1) * h.size == (n - 1) * h.size + 2 * h.size;
  }

  lemma WideGrows(n: nat, s: int, t: int, val: int)
    requires n >= 1 && 0 <= s <= t && Wide(n, s, val)
    ensures Wide(n, t, val)
  {
    ScaleUp(n - 1, s, t);
    ScaleUp(n + 1, s, t);
  }

  lemma {:induction false} BelowIsLeast(h: Hist, val: int)
    requires Shape(h) && h.min < 0
    ensures var r := OutUntilBelow(h, val);
            r.size >= h.size && (r.size == h.size || !Wide(|h.cvec|, r.size / 2, val))
    decreases h.min - val
  {
    if val >= h.min {
    } else {
      GrowKeepsShape(h);
      WideIsFit(h, val);
      BelowIsLeast(GrowOut(h), val);
    }
  }

  lemma {:induction false} AboveIsLeast(h: Hist, val: int)
    requires Shape(h) && h.min < 0
    ensures var r := OutUntilAbove(h, val);
            r.size >= h.size && (r.size == h.size || !Wide(|h.cvec|, r.size / 2, val))
    decreases val - h.max - h.size
  {
    if val < h.max + h.size {
    } else {
      GrowKeepsShape(h);
      WideIsFit(h, val);
      AboveIsLeast(GrowOut(h), val);
    }
  }

  /** Growing out stops as soon as the sample fits; going two-sided doubles the bucket size first. */
  lemma FitIsLeast(h: Hist, val: int)
    requires Shape(h) && (h.min < 0 || val < 0)
    ensures var r, first := Fit(h, val), if h.min == 0 then 2 * h.size else h.size;
            && r.min < 0 && Wide(|h.cvec|, r.size, val)
            && r.size >= first && (r.size == first || !Wide(|h.cvec|, r.size / 2, val))
  {
    ShapeSpans(h);
    GrowKeepsShape(h);
    FitMakesRoom(h, val);
    WideIsFit(Fit(h, val), val);
    if val < h.min {
      BelowIsLeast(if h.min == 0 then GrowConvert(h) else h, val);
    } else {
      AboveIsLeast(h, val);
    }
  }

  /** The least size, from twice the one-sided size s0 on, with which two-sided buckets hold all samples. */
  ghost predicate WideTight(n: nat, s0: int, size: int, xs: seq<Sample>) {
    && (forall j | 0 <= j < |xs| :: Wide(n, size, xs[j].val))
    && size >= 2 * s0
    && (size == 2 * s0 || exists j | 0 <= j < |xs| :: !Wide(n, size / 2, xs[j].val))
  }

  lemma TightIsWide(n: nat, s0: int, size: int, xs: seq<Sample>)
    requires n >= 1 && s0 >= 1 && size >= 2 * s0 && Tight(n, s0, xs) && NonNegative(xs)
    ensures forall j | 0 <= j < |xs| :: Wide(n, size, xs[j].val)
  {
    ScaleUp(n, 2 * s0, size);
    assert n * (2 * s0) == 2 * (n * s0);
    assert (n + 1) * size == n * size + size;
    ScaleUp(n - 1, 0, size);
  }

  /** One more sample keeps the size the least one. */
  lemma NextIsTight(n: nat, s0: int, size: int, xs: seq<Sample>, x: Sample, next: int)
    requires n >= 1 && 0 <= size <= next && WideTight(n, s0, size, xs) && Wide(n, next, x.val)
    requires next == size || !Wide(n, next / 2, x.val)
    ensures WideTight(n, s0, next, xs + [x])
  {
    var all := xs + [x];
    assert all[|xs|] == x;
    forall j | 0 <= j < |all|
      ensures Wide(n, next, all[j].val)
    {
      if j < |xs| {
        WideGrows(n, size, next, xs[j].val);
      }
    }
    if next == size && size != 2 * s0 {
      var j :| 0 <= j < |xs| && !Wide(n, size / 2, xs[j].val);
      assert all[j] == xs[j];
    }
  }

  /** Where the first negative sample comes, a run goes two-sided with the least size for its samples. */
  lemma FirstNegative(n: nat, xs: seq<Sample>, x: Sample)
    requires n >= 2 && NonNegative(xs) && x.val < 0
    ensures var h, r := Run(n, xs), Add(Run(n, xs), x); r.min < 0 && WideTight(n, h.size, r.size, xs + [x])
  {
    var h, all := Run(n, xs), xs + [x];
    OneSidedIff(n, xs);
    RunTight(n, xs);
    FitIsLeast(h, x.val);
    var size := Fit(h, x.val).size;
    TightIsWide(n, h.size, size, xs);
    assert all[|xs|] == x;
    assert forall j | 0 <= j < |xs| :: all[j] == xs[j];
  }

  /**
   After every run with a negative sample the bucket size is the least one that
   holds all samples, from twice the size before the first negative sample on.
   */
  lemma {:induction false} RunWideTight(n: nat, xs: seq<Sample>, k: nat)
    requires n >= 2 && k < |xs| && NonNegative(xs[..k]) && xs[k].val < 0
    ensures var h := Run(n, xs); h.min < 0 && WideTight(n, Run(n, xs[..k]).size, h.size, xs)
    decreases |xs|
  {
    var before, x := xs[..|xs| - 1], xs[|xs| - 1];
    assert before + [x] == xs;
    if k == |xs| - 1 {
      FirstNegative(n, before, x);
    } else {
      assert before[..k] == xs[..k];
      RunWideTight(n, before, k);
      var h := Run(n, before);
      FitIsLeast(h, x.val);
      NextIsTight(n, Run(n, xs[..k]).size, h.size, before, x, Fit(h, x.val).size);
    }
  }

  /** There is only one such power of two. */
  lemma WideTightIsUnique(n: nat, s0: int, s: int, t: int, xs: seq<Sample>)
    requires n >= 1 && PowerOfTwo(s) && PowerOfTwo(t) && WideTight(n, s0, s, xs) && WideTight(n, s0, t, xs)
    ensures s >= t
  {
    if s < t {
      PowersMeet(s, t);
      var j :| 0 <= j < |xs| && !Wide(n, t / 2, xs[j].val);
      WideGrows(n, s, t / 2, xs[j].val);
    }
  }

  /** A sample is counted in the one bucket that it lies in, once there is room for it. */
  lemma CountedWhereItLies(h: Hist, x: Sample, i: nat)
    requires Shape(h) && i < |h.cvec|
    ensures var r := Fit(h, x.val);
            && |Add(h, x).cvec| == |r.cvec| == |h.cvec|
            && Add(h, x).cvec[i]
               == r.cvec[i] + if Lower(r, i) <= x.val < Lower(r, i) + r.size then x.number else 0
  {
    FitMakesRoom(h, x.val);
    var r := Fit(h, x.val);
    NearOwnIndex(r, x.val);
    if Lower(r, i) <= x.val < Lower(r, i) + r.size {
      QuotientIs(x.val - r.min, r.size, i);
    }
  }

  lemma NearOwnIndex(r: Hist, val: int)
    requires r.size >= 1
    ensures Lower(r, Index(r, val)) <= val < Lower(r, Index(r, val)) + r.size
  {
    var x, s := val - r.min, r.size;
    assert x == x / s * s + x % s;
  }

  // ----- samples that are not integers

  /** The edges are integers, so a real sample goes to the bucket of its integer part. */
  lemma RealSampleBucket(v: real, min: int, size: int, edge: int)
    requires size >= 1
    ensures ((v - min as real) / size as real).Floor == (v.Floor - min) / size
    ensures v < edge as real <==> v.Floor < edge
  {
    var q := (v.Floor - min) / size;
    var f := v.Floor - min - q * size;
    assert q as real * size as real == (q * size) as real;
    var x := v - min as real;
    assert x == (q * size) as real + (f as real + (v - v.Floor as real));
    assert 0.0 <= f as real + (v - v.Floor as real) < size as real;
    RealQuotient(x, size as real, q);
  }

  lemma RealQuotient(x: real, s: real, q: int)
    requires s > 0.0 && q as real * s <= x < q as real * s + s
    ensures (x / s).Floor == q
  {
    var y := x / s;
    assert y * s == x;
    assert (y - q as real) * s >= 0.0;
    assert (q as real + 1.0 - y) * s == q as real * s + s - x;
    SignOfFactor(y - q as real, s);
    SignOfFactor(q as real + 1.0 - y, s);
  }

  lemma SignOfFactor(d: real, s: real)
    requires s > 0.0
    ensures d * s >= 0.0 ==> d >= 0.0
    ensures d * s > 0.0 ==> d > 0.0
  {
  }
}
