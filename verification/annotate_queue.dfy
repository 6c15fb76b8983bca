/**
 The byte queues of base/cp_annotate as values: a queue is a list of records,
 each standing for the bytes it still holds.
 */
module AnnotateQueues {

  /** A record and the number of bytes it still holds. */
  datatype Item = Item(r: nat, left: int)

  predicate NonNegative(s: seq<Item>) {
    forall i | 0 <= i < |s| :: s[i].left >= 0
  }

  function Sum(s: seq<Item>): int {
    if s == [] then 0 else s[0].left + Sum(s[1..])
  }

  function Bytes(x: Item): (b: seq<nat>)
    requires x.left >= 0
    ensures |b| == x.left
  {
    seq(x.left, _ => x.r)
  }

  /** The queue as a stream of bytes, each labelled with the record it belongs to. */
  function Stream(s: seq<Item>): seq<nat>
    requires NonNegative(s)
  {
    if s == [] then [] else Bytes(s[0]) + Stream(s[1..])
  }

  lemma {:induction false} StreamLength(s: seq<Item>)
    requires NonNegative(s)
    ensures |Stream(s)| == Sum(s)
  {
    if s == [] {
    } else {
      StreamLength(s[1..]);
    }
  }

  lemma {:induction false} StreamAppend(s: seq<Item>, t: seq<Item>)
    requires NonNegative(s) && NonNegative(t)
    ensures NonNegative(s + t) && Stream(s + t) == Stream(s) + Stream(t)
    ensures Sum(s + t) == Sum(s) + Sum(t)
  {
    if s == [] {
      assert s + t == t;
    } else {
      StreamAppend(s[1..], t);
      assert (s + t)[1..] == s[1..] + t;
    }
  }

  /** What the consuming loop of a dequeue leaves. */
  function TakeFront(s: seq<Item>, need: nat): seq<Item> {
    if need == 0 || s == [] then s
    else if s[0].left > need then [s[0].(left := s[0].left - need)] + s[1..]
    else if s[0].left == need then s[1..]
    else if s[0].left >= 0 then TakeFront(s[1..], need - s[0].left)
    else s
  }

  lemma FirstShortened(s: seq<Item>, need: nat)
    requires s != [] && NonNegative(s) && 0 < need < s[0].left
    ensures var r := TakeFront(s, need); NonNegative(r) && Sum(r) == Sum(s) - need
    ensures need <= |Stream(s)| && Stream(TakeFront(s, need)) == Stream(s)[need..]
  {
    var h, tail := s[0], Stream(s[1..]);
    var h' := h.(left := h.left - need);
    assert TakeFront(s, need)[1..] == s[1..];
    assert (Bytes(h) + tail)[need..] == Bytes(h') + tail;
  }

  /** A dequeue removes exactly the first `need` bytes of the stream. */
  lemma {:induction false} TakeFrontBytes(s: seq<Item>, need: nat)
    requires NonNegative(s) && need <= Sum(s)
    ensures var r := TakeFront(s, need); NonNegative(r) && Sum(r) == Sum(s) - need
    ensures need <= |Stream(s)| && Stream(TakeFront(s, need)) == Stream(s)[need..]
  {
    StreamLength(s);
    if need == 0 {
    } else {
      StreamLength(s[1..]);
      var h, tail := s[0], Stream(s[1..]);
      if h.left > need {
        FirstShortened(s, need);
      } else if h.left < need {
        TakeFrontBytes(s[1..], need - h.left);
        assert (Bytes(h) + tail)[need..] == tail[need - h.left..];
      } else {
        assert (Bytes(h) + tail)[need..] == tail;
      }
    }
  }

  /** What the trimming loop of a resize leaves. */
  function TrimBack(s: seq<Item>, need: nat): seq<Item>
    decreases |s|
  {
    if need == 0 || s == [] then s
    else
      var k := |s| - 1;
      if s[k].left > need then s[..k] + [s[k].(left := s[k].left - need)]
      else if s[k].left == need then s[..k]
      else if s[k].left >= 0 then TrimBack(s[..k], need - s[k].left)
      else s
  }

  lemma StreamOne(x: Item)
    requires x.left >= 0
    ensures NonNegative([x]) && Stream([x]) == Bytes(x) && Sum([x]) == x.left
  {
    assert [x][1..] == [];
    assert Stream([x]) == Bytes(x) + Stream([]);
  }

  lemma SplitLast(f: seq<Item>, x: Item)
    requires NonNegative(f) && x.left >= 0
    ensures NonNegative(f + [x]) && Stream(f + [x]) == Stream(f) + Bytes(x) && Sum(f + [x]) == Sum(f) + x.left
  {
    StreamOne(x);
    StreamAppend(f, [x]);
  }

  lemma TrimLast(s: seq<Item>, need: nat)
    requires s != [] && NonNegative(s) && 0 < need <= Sum(s)
    ensures var k := |s| - 1;
            && NonNegative(s[..k])
            && if s[k].left > need then TrimBack(s, need) == s[k := s[k].(left := s[k].left - need)]
               else TrimBack(s, need) == TrimBack(s[..k], need - s[k].left) && need - s[k].left <= Sum(s[..k])
  {
    var k := |s| - 1;
    SumAppend(s[..k], s[k]);
    assert s == s[..k] + [s[k]];
  }

  lemma {:induction false} SumAppend(s: seq<Item>, x: Item)
    ensures Sum(s + [x]) == Sum(s) + x.left
  {
    if s == [] {
    } else {
      SumAppend(s[1..], x);
      assert (s + [x])[1..] == s[1..] + [x];
    }
  }

  lemma TrimmedLast(f: seq<Item>, x: Item, need: nat)
    requires NonNegative(f) && need < x.left
    ensures var x' := x.(left := x.left - need);
            && NonNegative(f + [x']) && NonNegative(f + [x])
            && Sum(f + [x']) == Sum(f + [x]) - need && Stream(f + [x']) <= Stream(f + [x])
  {
    var x' := x.(left := x.left - need);
    SplitLast(f, x);
    SplitLast(f, x');
    assert Bytes(x') <= Bytes(x);
  }

  /** A resize keeps the front of the stream and removes exactly the last `need` bytes. */
  lemma {:induction false} TrimBackBytes(s: seq<Item>, need: nat)
    requires NonNegative(s) && need <= Sum(s)
    ensures var r := TrimBack(s, need); NonNegative(r) && Sum(r) == Sum(s) - need && Stream(r) <= Stream(s)
    decreases |s|
  {
    if need == 0 {
    } else {
      var f, x := s[..|s| - 1], s[|s| - 1];
      assert s == f + [x];
      TrimLast(s, need);
      SplitLast(f, x);
      if x.left > need {
        TrimmedLast(f, x, need);
        assert TrimBack(s, need) == f + [x.(left := x.left - need)];
      } else {
        TrimBackBytes(f, need - x.left);
      }
    }
  }

  // ----- records that lose bytes in place

  predicate InPool(q: seq<nat>, n: nat) {
    forall i | 0 <= i < |q| :: q[i] < n
  }

  /** A queue with the bytes its records still hold. */
  function Items(left: seq<int>, q: seq<nat>): (s: seq<Item>)
    requires InPool(q, |left|)
    ensures |s| == |q| && forall i | 0 <= i < |q| :: s[i] == Item(q[i], left[q[i]])
  {
    seq(|q|, i requires 0 <= i < |q| => Item(q[i], left[q[i]]))
  }

  ghost predicate Distinct(q: seq<nat>) {
    forall i, j | 0 <= i < j < |q| :: q[i] != q[j]
  }

  /** The records of a queue are there, once each. */
  ghost predicate Sound(left: seq<int>, q: seq<nat>) {
    InPool(q, |left|) && Distinct(q)
  }

  /** What the consuming loop of a dequeue leaves: the bytes left in records, and the queue. */
  function Consumed(left: seq<int>, q: seq<nat>, need: nat): (r: (seq<int>, seq<nat>))
    requires InPool(q, |left|)
    ensures |r.0| == |left| && InPool(r.1, |left|)
    decreases |q|
  {
    if need == 0 || q == [] then (left, q)
    else
      var head := left[q[0]];
      if head > need then (left[q[0] := head - need], q)
      else if head == need then (left, q[1..])
      else if head >= 0 then Consumed(left, q[1..], need - head)
      else (left, q)
  }

  /** What the trimming loop of a resize leaves. */
  function Trimmed(left: seq<int>, q: seq<nat>, need: nat): (r: (seq<int>, seq<nat>))
    requires InPool(q, |left|)
    ensures |r.0| == |left| && InPool(r.1, |left|)
    decreases |q|
  {
    if need == 0 || q == [] then (left, q)
    else
      var last := |q| - 1;
      var tail := left[q[last]];
      if tail > need then (left[q[last] := tail - need], q)
      else if tail == need then (left, q[..last])
      else if tail >= 0 then Trimmed(left, q[..last], need - tail)
      else (left, q)
  }

  /** A queue q' is the part of q between two places, and bytes were taken from at most record i of q. */
  ghost predicate Slice(left: seq<int>, q: seq<nat>, left': seq<int>, q': seq<nat>, lo: nat, hi: nat, i: int) {
    && lo <= hi <= |q| && q' == q[lo..hi]
    && (left' == left || (0 <= i < |q| && q[i] < |left| && |left'| == |left| && left' == left[q[i] := left'[q[i]]]))
  }

  /** Dequeueing only drops records at the front and takes bytes from the first that is left. */
  lemma {:induction false} ConsumedSlice(left: seq<int>, q: seq<nat>, need: nat) returns (lo: nat)
    requires InPool(q, |left|)
    ensures var r := Consumed(left, q, need); Slice(left, q, r.0, r.1, lo, |q|, lo)
    decreases |q|
  {
    lo := 0;
    assert q[0..|q|] == q;
    if need == 0 || q == [] {
    } else {
      var head := left[q[0]];
      if 0 <= head < need {
        var l := ConsumedSlice(left, q[1..], need - head);
        assert q[1..][l..|q| - 1] == q[l + 1..|q|];
        lo := l + 1;
      } else if head == need {
        lo := 1;
      }
    }
  }

  /** Trimming only drops records at the back and takes bytes from the last that is left. */
  lemma {:induction false} TrimmedSlice(left: seq<int>, q: seq<nat>, need: nat) returns (hi: nat)
    requires InPool(q, |left|)
    ensures var r := Trimmed(left, q, need); Slice(left, q, r.0, r.1, 0, hi, hi - 1)
    decreases |q|
  {
    hi := |q|;
    assert q[0..|q|] == q;
    if need == 0 || q == [] {
    } else {
      var last := |q| - 1;
      var tail := left[q[last]];
      if 0 <= tail < need {
        hi := TrimmedSlice(left, q[..last], need - tail);
        assert q[..last][0..hi] == q[0..hi];
      } else if tail == need {
        hi := last;
      }
    }
  }

  lemma LessenItems(left: seq<int>, q: seq<nat>, k: nat, v: int)
    requires Sound(left, q) && k < |q|
    ensures Items(left[q[k] := v], q) == Items(left, q)[k := Item(q[k], v)]
  {
  }

  /** On the items a dequeue is TakeFront. */
  lemma {:induction false} ConsumedIs(left: seq<int>, q: seq<nat>, need: nat)
    requires Sound(left, q)
    ensures var r := Consumed(left, q, need); Items(r.0, r.1) == TakeFront(Items(left, q), need)
    decreases |q|
  {
    if need == 0 || q == [] {
    } else {
      var head, rest := left[q[0]], q[1..];
      RestItems(left, q);
      if head > need {
        LessenItems(left, q, 0, head - need);
        FirstLess(Items(left, q), need);
      } else if 0 <= head < need {
        ConsumedIs(left, rest, need - head);
      }
    }
  }

  lemma RestItems(left: seq<int>, q: seq<nat>)
    requires Sound(left, q) && q != []
    ensures Sound(left, q[1..]) && Items(left, q[1..]) == Items(left, q)[1..]
  {
  }

  lemma FirstLess(s: seq<Item>, need: nat)
    requires s != [] && 0 < need < s[0].left
    ensures TakeFront(s, need) == s[0 := Item(s[0].r, s[0].left - need)]
  {
  }

  /** On the items a trim is TrimBack. */
  lemma {:induction false} TrimmedIs(left: seq<int>, q: seq<nat>, need: nat)
    requires Sound(left, q)
    ensures var r := Trimmed(left, q, need); Items(r.0, r.1) == TrimBack(Items(left, q), need)
    decreases |q|
  {
    if need == 0 || q == [] {
    } else {
      var last := |q| - 1;
      var tail, rest := left[q[last]], q[..last];
      assert Items(left, rest) == Items(left, q)[..last];
      if tail > need {
        LessenItems(left, q, last, tail - need);
      } else if 0 <= tail < need {
        TrimmedIs(left, rest, need - tail);
      }
    }
  }

  // ----- all queues

  /** The bytes left in each record ever added, and for each queue its counters and its records. */
  datatype Queues = Queues(left: seq<int>, qSize: seq<int>, qBytes: seq<int>, qData: seq<seq<nat>>)

  ghost predicate SameLengths(qs: Queues) {
    |qs.qSize| == |qs.qBytes| == |qs.qData|
  }

  /** The counters of queue k agree with its records. */
  ghost predicate QueueOk(qs: Queues, k: int)
    requires SameLengths(qs)
  {
    0 <= k < |qs.qData| ==>
      && Sound(qs.left, qs.qData[k]) && qs.qSize[k] == |qs.qData[k]|
      && NonNegative(Items(qs.left, qs.qData[k])) && qs.qBytes[k] == Sum(Items(qs.left, qs.qData[k]))
  }

  ghost predicate Disjoint(a: seq<nat>, b: seq<nat>) {
    forall x | x in a :: x !in b
  }

  /** No record is in two queues. */
  ghost predicate Apart(qs: Queues) {
    forall k, j | 0 <= k < |qs.qData| && 0 <= j < |qs.qData| && k != j :: Disjoint(qs.qData[k], qs.qData[j])
  }

  ghost predicate QueuesOk(qs: Queues) {
    SameLengths(qs) && Apart(qs) && forall k {:trigger QueueOk(qs, k)} :: QueueOk(qs, k)
  }

  /** Queue k as a value. */
  ghost function View(qs: Queues, k: int): (s: seq<Item>)
    requires QueuesOk(qs) && 0 <= k < |qs.qData|
    ensures NonNegative(s) && qs.qBytes[k] == Sum(s) && qs.qSize[k] == |s|
  {
    assert QueueOk(qs, k);
    Items(qs.left, qs.qData[k])
  }

  /** Queue k as a stream of bytes, each labelled with the record that brought it. */
  ghost function Bytestream(qs: Queues, k: int): (s: seq<nat>)
    requires QueuesOk(qs) && 0 <= k < |qs.qData|
    ensures qs.qBytes[k] == |s|
  {
    StreamLength(View(qs, k));
    Stream(View(qs, k))
  }

  lemma QueueCounts(qs: Queues, k: int)
    requires QueuesOk(qs) && 0 <= k < |qs.qData|
    ensures qs.qSize[k] == |qs.qData[k]| && InPool(qs.qData[k], |qs.left|)
    ensures NonNegative(Items(qs.left, qs.qData[k])) && qs.qBytes[k] == Sum(Items(qs.left, qs.qData[k]))
  {
    assert QueueOk(qs, k);
  }

  /** All queues but k are as they were. */
  ghost predicate OthersKept(a: Queues, b: Queues, k: int) {
    && QueuesOk(a) && QueuesOk(b) && |b.qData| == |a.qData|
    && forall j | 0 <= j < |a.qData| && j != k :: View(b, j) == View(a, j)
  }

  /** Queue k with other records, holding other numbers of bytes. */
  function Put(qs: Queues, k: nat, left: seq<int>, q: seq<nat>, bytes: int): Queues
    requires SameLengths(qs) && k < |qs.qData|
  {
    Queues(left, qs.qSize[k := |q|], qs.qBytes[k := bytes], qs.qData[k := q])
  }

  lemma PutOther(qs: Queues, k: nat, left: seq<int>, q: seq<nat>, bytes: int, j: nat)
    requires QueuesOk(qs) && k < |qs.qData| && j < |qs.qData| && j != k
    requires |left| == |qs.left| && forall x | 0 <= x < |left| && x !in qs.qData[k] :: left[x] == qs.left[x]
    ensures QueueOk(Put(qs, k, left, q, bytes), j) && Items(left, qs.qData[j]) == Items(qs.left, qs.qData[j])
  {
    assert QueueOk(qs, j);
    assert forall i | 0 <= i < |qs.qData[j]| :: qs.qData[j][i] in qs.qData[j];
    assert Disjoint(qs.qData[j], qs.qData[k]);
    assert Items(left, qs.qData[j]) == Items(qs.left, qs.qData[j]);
  }

  /** Replacing queue k keeps all queues in order when its records are its own. */
  lemma PutOk(qs: Queues, k: nat, left: seq<int>, q: seq<nat>, bytes: int)
    requires QueuesOk(qs) && k < |qs.qData|
    requires |left| == |qs.left| && forall x | 0 <= x < |left| && x !in qs.qData[k] :: left[x] == qs.left[x]
    requires Sound(left, q) && NonNegative(Items(left, q)) && bytes == Sum(Items(left, q))
    requires forall j | 0 <= j < |qs.qData| && j != k :: Disjoint(q, qs.qData[j]) && Disjoint(qs.qData[j], q)
    ensures var r := Put(qs, k, left, q, bytes);
            QueuesOk(r) && View(r, k) == Items(left, q) && OthersKept(qs, r, k)
  {
    var r := Put(qs, k, left, q, bytes);
    forall j
      ensures QueueOk(r, j)
    {
      if 0 <= j < |qs.qData| && j != k {
        PutOther(qs, k, left, q, bytes, j);
      }
    }
    forall j | 0 <= j < |qs.qData| && j != k
      ensures View(r, j) == View(qs, j)
    {
      PutOther(qs, k, left, q, bytes, j);
    }
  }

  /** One more record, in no queue. */
  function WithRecord(qs: Queues, d: int): Queues {
    qs.(left := qs.left + [d])
  }

  lemma WithRecordOk(qs: Queues, d: int)
    requires QueuesOk(qs)
    ensures QueuesOk(WithRecord(qs, d)) && OthersKept(qs, WithRecord(qs, d), -1)
  {
    var r := WithRecord(qs, d);
    forall k
      ensures QueueOk(r, k)
    {
      assert QueueOk(qs, k);
      if 0 <= k < |qs.qData| {
        assert Items(r.left, r.qData[k]) == Items(qs.left, qs.qData[k]);
      }
    }
    forall k | 0 <= k < |qs.qData|
      ensures View(r, k) == View(qs, k)
    {
      assert QueueOk(qs, k);
    }
  }

  /** One more queue, with nothing in it. */
  function WithQueue(qs: Queues): (r: Queues)
    requires QueuesOk(qs)
    ensures QueuesOk(r) && r.left == qs.left && r.qData == qs.qData + [[]]
    ensures View(r, |qs.qData|) == [] && forall j | 0 <= j < |qs.qData| :: View(r, j) == View(qs, j)
  {
    WithQueueOk(qs);
    Queues(qs.left, qs.qSize + [0], qs.qBytes + [0], qs.qData + [[]])
  }

  lemma WithQueueOk(qs: Queues)
    requires QueuesOk(qs)
    ensures QueuesOk(Queues(qs.left, qs.qSize + [0], qs.qBytes + [0], qs.qData + [[]]))
  {
    var r := Queues(qs.left, qs.qSize + [0], qs.qBytes + [0], qs.qData + [[]]);
    forall k
      ensures QueueOk(r, k)
    {
      assert QueueOk(qs, k);
    }
  }

  /** A queue with one more item, at the front or at the back. */
  function Pushed<T>(s: seq<T>, x: T, front: bool): seq<T> {
    if front then [x] + s else s + [x]
  }

  lemma PushedItems(left: seq<int>, q: seq<nat>, x: nat, front: bool)
    requires Sound(left, q) && NonNegative(Items(left, q)) && x < |left| && left[x] >= 0 && x !in q
    ensures var q' := Pushed(q, x, front);
            && Sound(left, q') && Items(left, q') == Pushed(Items(left, q), Item(x, left[x]), front)
            && NonNegative(Items(left, q')) && Sum(Items(left, q')) == Sum(Items(left, q)) + left[x]
  {
    var q', item := Pushed(q, x, front), Item(x, left[x]);
    assert Items(left, q') == Pushed(Items(left, q), item, front);
    if front {
      assert Items(left, q')[1..] == Items(left, q);
    } else {
      SumAppend(Items(left, q), item);
    }
  }

  /** Records not yet in any queue. */
  ghost predicate Free(qs: Queues, x: nat) {
    x < |qs.left| && forall j | 0 <= j < |qs.qData| :: x !in qs.qData[j]
  }

  lemma NewestIsFree(qs: Queues, d: int)
    requires QueuesOk(qs)
    ensures Free(WithRecord(qs, d), |qs.left|)
  {
    forall j | 0 <= j < |qs.qData|
      ensures |qs.left| !in qs.qData[j]
    {
      assert QueueOk(qs, j);
    }
  }

  /** Queue k takes in a record. */
  function Enqueued(qs: Queues, k: nat, x: nat, front: bool): (r: Queues)
    requires QueuesOk(qs) && k < |qs.qData| && Free(qs, x) && qs.left[x] >= 0
    ensures r.left == qs.left && |r.qData| == |qs.qData|
  {
    Put(qs, k, qs.left, Pushed(qs.qData[k], x, front), qs.qBytes[k] + qs.left[x])
  }

  lemma EnqueuedIs(qs: Queues, k: nat, x: nat, front: bool)
    requires QueuesOk(qs) && k < |qs.qData| && Free(qs, x) && qs.left[x] >= 0
    ensures var q := if front then [x] + qs.qData[k] else qs.qData[k] + [x];
            && SameLengths(qs)
            && Enqueued(qs, k, x, front)
               == Queues(qs.left, qs.qSize[k := qs.qSize[k] + 1], qs.qBytes[k := qs.qBytes[k] + qs.left[x]],
                         qs.qData[k := q])
  {
    QueueCounts(qs, k);
  }

  lemma EnqueuedOk(qs: Queues, k: nat, x: nat, front: bool)
    requires QueuesOk(qs) && k < |qs.qData| && Free(qs, x) && qs.left[x] >= 0
    ensures var r := Enqueued(qs, k, x, front);
            QueuesOk(r) && OthersKept(qs, r, k) && View(r, k) == Pushed(View(qs, k), Item(x, qs.left[x]), front)
  {
    assert QueueOk(qs, k);
    PushedItems(qs.left, qs.qData[k], x, front);
    PutOk(qs, k, qs.left, Pushed(qs.qData[k], x, front), qs.qBytes[k] + qs.left[x]);
  }

  function Emptied(qs: Queues, k: nat): (r: Queues)
    requires QueuesOk(qs) && k < |qs.qData|
    ensures QueuesOk(r) && OthersKept(qs, r, k) && View(r, k) == [] && r.left == qs.left
  {
    PutOk(qs, k, qs.left, [], 0);
    Put(qs, k, qs.left, [], 0)
  }

  lemma SliceOk(qs: Queues, k: nat, left: seq<int>, q: seq<nat>, lo: nat, hi: nat, i: int, bytes: int)
    requires QueuesOk(qs) && k < |qs.qData| && Slice(qs.left, qs.qData[k], left, q, lo, hi, i) && InPool(q, |left|)
    requires NonNegative(Items(left, q)) && bytes == Sum(Items(left, q))
    ensures var r := Put(qs, k, left, q, bytes);
            QueuesOk(r) && OthersKept(qs, r, k) && View(r, k) == Items(left, q)
  {
    assert QueueOk(qs, k);
    assert forall x | x in q :: x in qs.qData[k];
    PutOk(qs, k, left, q, bytes);
  }

  /** Queue k without its first n bytes. */
  function Dequeued(qs: Queues, k: nat, n: nat): (r: Queues)
    requires QueuesOk(qs) && k < |qs.qData| && n <= qs.qBytes[k]
    ensures QueuesOk(r) && OthersKept(qs, r, k) && View(r, k) == TakeFront(View(qs, k), n) && |r.left| == |qs.left|
  {
    assert QueueOk(qs, k);
    DequeuedOk(qs, k, n);
    var c := Consumed(qs.left, qs.qData[k], n);
    Put(qs, k, c.0, c.1, qs.qBytes[k] - n)
  }

  lemma DequeuedOk(qs: Queues, k: nat, n: nat)
    requires QueuesOk(qs) && k < |qs.qData| && n <= qs.qBytes[k] && Sound(qs.left, qs.qData[k])
    ensures var c := Consumed(qs.left, qs.qData[k], n);
            var r := Put(qs, k, c.0, c.1, qs.qBytes[k] - n);
            QueuesOk(r) && OthersKept(qs, r, k) && View(r, k) == TakeFront(View(qs, k), n)
  {
    assert QueueOk(qs, k);
    var q, c := qs.qData[k], Consumed(qs.left, qs.qData[k], n);
    var lo := ConsumedSlice(qs.left, q, n);
    ConsumedIs(qs.left, q, n);
    TakeFrontBytes(Items(qs.left, q), n);
    SliceOk(qs, k, c.0, c.1, lo, |q|, lo, qs.qBytes[k] - n);
  }

  /** Queue k without its last n bytes. */
  function Cut(qs: Queues, k: nat, n: nat): (r: Queues)
    requires QueuesOk(qs) && k < |qs.qData| && n <= qs.qBytes[k]
    ensures QueuesOk(r) && OthersKept(qs, r, k) && View(r, k) == TrimBack(View(qs, k), n) && |r.left| == |qs.left|
  {
    assert QueueOk(qs, k);
    CutOk(qs, k, n);
    var c := Trimmed(qs.left, qs.qData[k], n);
    Put(qs, k, c.0, c.1, qs.qBytes[k] - n)
  }

  lemma CutOk(qs: Queues, k: nat, n: nat)
    requires QueuesOk(qs) && k < |qs.qData| && n <= qs.qBytes[k] && Sound(qs.left, qs.qData[k])
    ensures var c := Trimmed(qs.left, qs.qData[k], n);
            var r := Put(qs, k, c.0, c.1, qs.qBytes[k] - n);
            QueuesOk(r) && OthersKept(qs, r, k) && View(r, k) == TrimBack(View(qs, k), n)
  {
    assert QueueOk(qs, k);
    var q, c := qs.qData[k], Trimmed(qs.left, qs.qData[k], n);
    var hi := TrimmedSlice(qs.left, q, n);
    TrimmedIs(qs.left, q, n);
    TrimBackBytes(Items(qs.left, q), n);
    var cut: int := hi;
    SliceOk(qs, k, c.0, c.1, 0, hi, cut - 1, qs.qBytes[k] - n);
  }

  /** A dequeue takes exactly the first n bytes off the stream, a cut the last n. */
  lemma BytesTaken(qs: Queues, k: nat, n: nat)
    requires QueuesOk(qs) && k < |qs.qData| && n <= qs.qBytes[k]
    ensures Bytestream(Dequeued(qs, k, n), k) == Bytestream(qs, k)[n..]
    ensures Bytestream(Cut(qs, k, n), k) == Bytestream(qs, k)[..qs.qBytes[k] - n]
  {
    TakeFrontBytes(View(qs, k), n);
    TrimBackBytes(View(qs, k), n);
    assert |Bytestream(Cut(qs, k, n), k)| == qs.qBytes[k] - n;
  }

  /** Enqueueing at the back appends the record's bytes to the stream. */
  lemma BytesAdded(qs: Queues, k: nat, x: nat, front: bool)
    requires QueuesOk(qs) && k < |qs.qData| && Free(qs, x) && qs.left[x] >= 0
    ensures QueuesOk(Enqueued(qs, k, x, front))
    ensures var s, b := Bytestream(qs, k), Bytes(Item(x, qs.left[x]));
            Bytestream(Enqueued(qs, k, x, front), k) == if front then b + s else s + b
  {
    EnqueuedOk(qs, k, x, front);
    var items, item := View(qs, k), Item(x, qs.left[x]);
    if front {
      assert ([item] + items)[1..] == items;
    } else {
      SplitLast(items, item);
    }
  }
}
