/**
 The trace of base/cp_annotate as a value. A record is named by its position
 among all records ever added; the trace, the queues and the table of unresolved
 links share records by holding the same positions.
 */
module AnnotateTrace {

  const OP_BEGIN := 0x01
  const OP_QUEUE := 0x04
  const OP_DEQUEUE := 0x05
  const OP_SIZE_QUEUE := 0x08
  const OP_LINK := 0x0A

  const FL_NONE: bv8 := 0x00
  const FL_QOPP: bv8 := 0x04
  const FL_LINK: bv8 := 0x10
  const FL_RESET: bv8 := 0x20

  /** The target of a link that is not known yet. */
  const UNKNOWN := 0xFFFF

  /** Records are written out when this many have gathered. */
  const BATCH := 10000

  /** The part of a record that is written to the file. */
  datatype Written = Written(time: nat, count: int, sm: int, stq: int, op: int, flag: bv8, cpu: int)

  /** One record, without the bytes it still holds. Only `stq` and `dump` change after it is made. */
  datatype Rec = Rec(time: nat, op: int, flag: bv8, cpu: int, sm: int, stq: int, count: int, dump: bool)

  function Made(now: nat, op: int, flag: bv8, cpu: int, sm: int, stq: int, d: int): Rec {
    Rec(now, op, flag, cpu, sm, stq, d, true)
  }

  function Form(r: Rec): Written {
    Written(r.time, r.count, r.sm, r.stq, r.op, r.flag, r.cpu)
  }

  function Forms(rs: seq<Rec>): (ws: seq<Written>)
    ensures |ws| == |rs| && forall i | 0 <= i < |rs| :: ws[i] == Form(rs[i])
  {
    seq(|rs|, i requires 0 <= i < |rs| => Form(rs[i]))
  }

  /** A record is made as asked, and may be written. */
  lemma MadeAsAsked(now: nat, op: int, flag: bv8, cpu: int, sm: int, stq: int, d: int)
    ensures var r := Made(now, op, flag, cpu, sm, stq, d);
            r.dump && AsAdded(Written(now, d, sm, stq, op, flag, cpu), r)
  {
  }

  // ----- the trace

  /** All records ever added, what has been written for the first of them, and whether a write-out was forced. */
  datatype Trace = Trace(pool: seq<Rec>, written: seq<Written>, forced: bool)

  /** What is written for a record, apart from its state or target field. */
  predicate SameButTarget(w: Written, r: Rec) {
    w == Form(r).(stq := w.stq)
  }

  /** The records written are the first ones added, in order, each with its original count. */
  ghost predicate TraceOk(t: Trace) {
    && |t.written| <= |t.pool|
    && (forall i | 0 <= i < |t.written| :: SameButTarget(t.written[i], t.pool[i]))
    && (!t.forced ==> forall i | 0 <= i < |t.written| :: t.pool[i].dump && t.written[i] == Form(t.pool[i]))
  }

  /** A record later on: only the target of one held back may have changed. */
  ghost predicate Later(a: Rec, b: Rec) {
    b == a.(stq := b.stq, dump := b.dump) && (a.dump ==> b.dump && b.stq == a.stq)
  }

  /** A trace later on: what was added and written stays. */
  ghost predicate Follows(a: Trace, b: Trace) {
    && |a.pool| <= |b.pool| && a.written <= b.written && (a.forced ==> b.forced)
    && forall i | 0 <= i < |a.pool| :: Later(a.pool[i], b.pool[i])
  }

  lemma FollowsTransitive(a: Trace, b: Trace, c: Trace)
    requires Follows(a, b) && Follows(b, c)
    ensures Follows(a, c)
  {
    forall i | 0 <= i < |a.pool|
      ensures Later(a.pool[i], c.pool[i])
    {
      assert Later(a.pool[i], b.pool[i]) && Later(b.pool[i], c.pool[i]);
    }
  }

  /** How many records from i on may be written. */
  function Ready(pool: seq<Rec>, i: nat): (n: nat)
    requires i <= |pool|
    ensures i + n <= |pool| && (forall j | i <= j < i + n :: pool[j].dump) && (i + n < |pool| ==> !pool[i + n].dump)
    decreases |pool| - i
  {
    if i == |pool| || !pool[i].dump then 0 else 1 + Ready(pool, i + 1)
  }

  /** How many records from i on a write-out writes once it writes at all. */
  function Writable(pool: seq<Rec>, i: nat, all: bool): (n: nat)
    requires i <= |pool|
    ensures i + n <= |pool|
  {
    if all then |pool| - i else Ready(pool, i)
  }

  /** How many records a write-out writes. */
  function DumpCount(t: Trace, all: bool): (n: nat)
    ensures n == 0 || |t.written| + n <= |t.pool|
  {
    if |t.written| >= |t.pool| || (!all && |t.pool| - |t.written| < BATCH) then 0
    else Writable(t.pool, |t.written|, all)
  }

  /** The trace with n more records written. */
  function WroteMore(t: Trace, n: nat): Trace {
    if |t.written| + n > |t.pool| then t
    else t.(written := t.written + Forms(t.pool[|t.written|..|t.written| + n]))
  }

  lemma WroteMoreOk(t: Trace, n: nat)
    requires TraceOk(t) && |t.written| + n <= |t.pool|
    requires !t.forced ==> forall j | |t.written| <= j < |t.written| + n :: t.pool[j].dump
    ensures TraceOk(WroteMore(t, n)) && Follows(t, WroteMore(t, n))
  {
    var r, w := WroteMore(t, n), |t.written|;
    forall j | w <= j < w + n
      ensures r.written[j] == Form(t.pool[j])
    {
      assert t.pool[w..w + n][j - w] == t.pool[j];
    }
  }

  /** The trace after a write-out. */
  function Dumped(t: Trace, all: bool): (r: Trace)
    ensures r.pool == t.pool && r.forced == (t.forced || all)
  {
    WroteMore(t.(forced := t.forced || all), DumpCount(t, all))
  }

  /** Nothing is written when nothing is pending, or too little has gathered. */
  lemma DumpsNothing(t: Trace, all: bool)
    requires |t.written| <= |t.pool| && (|t.pool| == |t.written| || (!all && |t.pool| - |t.written| < BATCH))
    ensures Dumped(t, all) == t.(forced := t.forced || all)
  {
  }

  lemma DumpsSome(t: Trace, all: bool)
    requires |t.written| < |t.pool| && (all || |t.pool| - |t.written| >= BATCH)
    ensures var w := |t.written|;
            var n := Writable(t.pool, w, all);
            Dumped(t, all) == t.(written := t.written + Forms(t.pool[w..w + n]), forced := t.forced || all)
  {
  }

  lemma DumpedOk(t: Trace, all: bool)
    requires TraceOk(t)
    ensures TraceOk(Dumped(t, all)) && Follows(t, Dumped(t, all))
  {
    var t1 := t.(forced := t.forced || all);
    WroteMoreOk(t1, DumpCount(t, all));
    FollowsTransitive(t, t1, Dumped(t, all));
  }

  /** A record written in full. */
  predicate AsAdded(w: Written, r: Rec) {
    && w.time == r.time && w.count == r.count && w.sm == r.sm && w.stq == r.stq
    && w.op == r.op && w.flag == r.flag && w.cpu == r.cpu
  }

  /**
   A forced write-out writes everything. Any other writes nothing while fewer
   than 10000 records are pending, and else all up to the first one held back.
   */
  lemma DumpedIs(t: Trace, all: bool)
    requires TraceOk(t)
    ensures var r := Dumped(t, all);
            var w, v := |t.written|, |r.written|;
            && t.written <= r.written && v <= |t.pool|
            && (forall j | w <= j < v :: AsAdded(r.written[j], t.pool[j]))
            && (all ==> v == |t.pool|)
            && (!all && |t.pool| - w < 10000 ==> v == w)
            && (!all && |t.pool| - w >= 10000 ==>
                  (forall j | w <= j < v :: t.pool[j].dump) && (v < |t.pool| ==> !t.pool[v].dump))
  {
    var r, w, n := Dumped(t, all), |t.written|, DumpCount(t, all);
    forall j | w <= j < w + n
      ensures r.written[j] == Form(t.pool[j])
    {
      assert t.pool[w..w + n][j - w] == t.pool[j];
    }
  }

  /** The trace with one more record; anything but a link may set off a write-out. */
  function Added(t: Trace, r: Rec): (t': Trace)
    ensures t'.pool == t.pool + [r] && t'.forced == t.forced
  {
    var t1 := t.(pool := t.pool + [r]);
    if r.op != OP_LINK then Dumped(t1, false) else t1
  }

  /** A link sets off no write-out, and any other record the one that goes by the number pending with it. */
  lemma AddedIs(t: Trace, r: Rec)
    requires TraceOk(t)
    ensures var t', w := Added(t, r), |t.written|;
            var v, pool := |t'.written|, t.pool + [r];
            && t'.pool == pool && t.written <= t'.written && v <= |pool|
            && (forall j | w <= j < v :: AsAdded(t'.written[j], pool[j]) && pool[j].dump)
            && (r.op == OP_LINK || |pool| - w < 10000 ==> v == w)
            && (r.op != OP_LINK && |pool| - w >= 10000 && v < |pool| ==> !pool[v].dump)
  {
    var t1 := t.(pool := t.pool + [r]);
    assert TraceOk(t1);
    DumpedIs(t1, false);
  }

  lemma AddedOk(t: Trace, r: Rec)
    requires TraceOk(t)
    ensures TraceOk(Added(t, r)) && Follows(t, Added(t, r))
  {
    var t1 := t.(pool := t.pool + [r]);
    assert TraceOk(t1) && Follows(t, t1);
    DumpedOk(t1, false);
    FollowsTransitive(t, t1, Dumped(t1, false));
  }
}
