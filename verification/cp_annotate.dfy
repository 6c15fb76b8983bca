/**
 The critical-path annotator of base/cp_annotate as it is written: caches,
 counters, lists and stacks that every call updates in place. Each method is
 proved against the value model; a record is a position in `pool`.
 */
module CpAnnotate {
  import opened Basics
  import opened AnnotateNames
  import opened AnnotateQueues
  import opened AnnotateTrace
  import opened AnnotateModel

  /** The positions from i to n. */
  function Range(i: nat, n: nat): (s: seq<nat>)
    ensures i <= n ==> |s| == n - i
  {
    if i >= n then [] else Range(i, n - 1) + [n - 1]
  }

  lemma {:induction false} RangeAt(i: nat, n: nat, k: nat)
    requires i + k < n
    ensures Range(i, n)[k] == i + k
  {
    if i + k >= n - 1 {
    } else {
      RangeAt(i, n - 1, k);
    }
  }

  lemma {:induction false} RangeFrom(i: nat, k: nat, n: nat)
    requires i + k <= n
    ensures Range(i, n)[k..] == Range(i + k, n)
  {
    if i + k >= n {
    } else {
      RangeFrom(i, k, n - 1);
    }
  }

  function Sizes(ss: seq<seq<string>>): (ns: seq<int>)
    ensures |ns| == |ss|
  {
    if ss == [] then [] else Sizes(ss[..|ss| - 1]) + [|ss[|ss| - 1]|]
  }

  /** One list made longer by one. */
  lemma {:induction false} SizesUpdate(ss: seq<seq<string>>, k: nat, s: seq<string>)
    requires k < |ss|
    ensures Sizes(ss)[k] == |ss[k]| && Sizes(ss[k := s]) == Sizes(ss)[k := |s|]
  {
    var last := |ss| - 1;
    if k < last {
      SizesUpdate(ss[..last], k, s);
      assert ss[k := s][..last] == ss[..last][k := s];
    } else {
      assert ss[k := s][..last] == ss[..last];
    }
  }

  /** What the source counts beside its tables, and its list of pending records. */
  datatype Counters = Counters(numSys: int, numSm: int, numQs: int, numSmt: int, numSt: seq<int>, data: seq<nat>)

  ghost function CountersFor(st: State): Counters {
    Counters(|st.names.systems|, |st.names.smMap|, |st.names.qMap|, |st.states.smtNames|, Sizes(st.states.stNames),
             Range(|st.trace.written|, |st.trace.pool|))
  }

  /** Record n of the pending list. */
  function Pending(pool: seq<Rec>, data: seq<nat>, n: nat): (r: Rec)
    requires |data| <= |pool| && data == Range(|pool| - |data|, |pool|) && n < |data|
    ensures r == pool[|pool| - |data| + n]
  {
    RangeAt(|pool| - |data|, |pool|, n);
    pool[data[n]]
  }

  /** The write-out loop: how many records at the front of the list are written, and what is written for them. */
  method WriteOut(pool: seq<Rec>, data: seq<nat>, all: bool) returns (n: nat, out: seq<Written>)
    requires |data| <= |pool| && data == Range(|pool| - |data|, |pool|)
    ensures var w := |pool| - |data|;
            n == (if all then |data| else Ready(pool, w)) && w + n <= |pool| && out == Forms(pool[w..w + n])
  {
    ghost var w := |pool| - |data|;
    n, out := 0, [];
    while n < |data| && (Pending(pool, data, n).dump || all)
      invariant n <= |data| && out == Forms(pool[w..w + n]) && (all || n <= Ready(pool, w))
    {
      RangeAt(w, |pool|, n);
      assert pool[w..w + n + 1] == pool[w..w + n] + [pool[w + n]];
      out := out + [Form(Pending(pool, data, n))];
      n := n + 1;
    }
  }

  /**
   The consuming loop of a dequeue: emptied records are dropped, and the record
   where the bytes run out is trimmed. `size` is the element counter kept beside
   the list; it never runs out inside the loop.
   */
  method Consume(left: seq<int>, q: seq<nat>, size: int, count: nat) returns (left': seq<int>, rest: seq<nat>,
                 size': int)
    requires InPool(q, |left|) && NonNegative(Items(left, q)) && count <= Sum(Items(left, q)) && size == |q|
    ensures (left', rest) == Consumed(left, q, count) && size' == |rest|
  {
    var need := count;
    left', rest, size' := left, q, size;
    while need > 0
      invariant need >= 0 && size' == |rest| && |left'| == |left| && InPool(rest, |left|)
      invariant Consumed(left', rest, need) == Consumed(left, q, count)
      invariant need > 0 ==> left' == left && NonNegative(Items(left, rest)) && need <= Sum(Items(left, rest))
      decreases need, |rest|
    {
      assert size' > 0;
      assert Items(left, rest)[1..] == Items(left, rest[1..]);
      var headBytes := left[rest[0]];
      if headBytes > need {
        left', need := left[rest[0] := headBytes - need], 0;
      } else if headBytes == need {
        rest, size', need := rest[1..], size' - 1, 0;
      } else {
        rest, size', need := rest[1..], size' - 1, need - headBytes;
      }
    }
  }

  lemma LastItem(left: seq<int>, q: seq<nat>)
    requires InPool(q, |left|) && NonNegative(Items(left, q)) && q != []
    ensures var last := |q| - 1;
            && Items(left, q[..last]) == Items(left, q)[..last]
            && Sum(Items(left, q)) == Sum(Items(left, q[..last])) + left[q[last]]
  {
    var last := |q| - 1;
    SumAppend(Items(left, q[..last]), Item(q[last], left[q[last]]));
    assert Items(left, q) == Items(left, q[..last]) + [Item(q[last], left[q[last]])];
  }

  /** The trimming loop of a resize. */
  method Trim(left: seq<int>, q: seq<nat>, size: int, count: nat) returns (left': seq<int>, rest: seq<nat>, size': int)
    requires InPool(q, |left|) && NonNegative(Items(left, q)) && count <= Sum(Items(left, q)) && size == |q|
    ensures (left', rest) == Trimmed(left, q, count) && size' == |rest|
  {
    var need := count;
    left', rest, size' := left, q, size;
    while need > 0
      invariant need >= 0 && size' == |rest| && |left'| == |left| && InPool(rest, |left|)
      invariant Trimmed(left', rest, need) == Trimmed(left, q, count)
      invariant need > 0 ==> left' == left && NonNegative(Items(left, rest)) && need <= Sum(Items(left, rest))
      decreases need, |rest|
    {
      assert size' > 0;
      LastItem(left, rest);
      var last := |rest| - 1;
      var tailBytes := left[rest[last]];
      if tailBytes > need {
        left', need := left[rest[last] := tailBytes - need], 0;
      } else if tailBytes == need {
        rest, size', need := rest[..last], size' - 1, 0;
      } else {
        rest, size', need := rest[..last], size' - 1, need - tailBytes;
      }
    }
  }

  class CPA {
    // systems
    var nameCache: map<int, int>
    var numSys: int
    ghost var systems: seq<int>
    // state machines and queues by system and name
    var numSm: int
    var smCache: seq<map<Id, int>>
    var smMap: seq<(int, Id)>
    var numQs: int
    var numQ: seq<int>
    var qCache: seq<map<Id, int>>
    var qMap: seq<(int, Id)>
    // states by machine name
    var numSmt: int
    var smtCache: map<string, int>
    var numSt: seq<int>
    var stCache: seq<map<string, int>>
    ghost var smtNames: seq<string>
    ghost var stNames: seq<seq<string>>
    // running state machines, links between them, their last states
    var smStack: map<StackId, seq<int>>
    var lnMap: map<int, int>
    var lastState: map<int, int>
    // the queues, and the bytes left in each record
    var qSize: seq<int>
    var qBytes: seq<int>
    var qData: seq<seq<nat>>
    var left: seq<int>
    // links whose target machine has not begun
    var scLinks: seq<map<Id, nat>>
    ghost var awaited: map<nat, (int, Id)>
    // all records, the pending ones in order, and what has been written
    var pool: seq<Rec>
    var data: seq<nat>
    var written: seq<Written>
    ghost var forced: bool

    ghost function NamesView(): Names
      reads this`nameCache, this`systems, this`smCache, this`smMap, this`numQ, this`qCache, this`qMap
    {
      Names(nameCache, systems, smCache, smMap, numQ, qCache, qMap)
    }

    ghost function StatesView(): States
      reads this`smtCache, this`smtNames, this`stCache, this`stNames
    {
      States(smtCache, smtNames, stCache, stNames)
    }

    ghost function QueuesView(): Queues
      reads this`left, this`qSize, this`qBytes, this`qData
    {
      Queues(left, qSize, qBytes, qData)
    }

    ghost function TraceView(): Trace
      reads this`pool, this`written, this`forced
    {
      Trace(pool, written, forced)
    }

    ghost function View(): State
      reads this
    {
      State(NamesView(), StatesView(), Machines(smStack, lnMap, lastState), QueuesView(), Links(scLinks, awaited),
          TraceView())
    }

    /** The counters agree with the tables, and the pending list holds the records not yet written, in order. */
    ghost predicate Counted()
      reads this
    {
      Counters(numSys, numSm, numQs, numSmt, numSt, data) == CountersFor(View())
    }

    ghost predicate Valid()
      reads this
    {
      Inv(View()) && Counted()
    }

    /** How a call has ended. */
    ghost function Result(ok: bool): Outcome
      reads this
    {
      if ok then Fine(View()) else Stopped(TraceView())
    }

    constructor ()
      ensures Valid() && View() == Init()
    {
      nameCache, numSys, systems := map[], 0, [];
      numSm, smCache, smMap := 0, [], [];
      numQs, numQ, qCache, qMap := 0, [], [], [];
      numSmt, smtCache, numSt, stCache, smtNames, stNames := 0, map[], [], [], [], [];
      smStack, lnMap, lastState := map[], map[], map[];
      qSize, qBytes, qData, left := [], [], [], [];
      scLinks, awaited := [], map[];
      pool, data, written, forced := [], [], [], false;
    }

    // ----- interning

    /** The number of a system, new ones in order of appearance. */
    method GetSys(sys: int) returns (i: int)
      requires NamesOk(NamesView()) && numSys == |systems|
      modifies this`nameCache, this`numSys, this`systems, this`numQ, this`qCache, this`smCache, this`scLinks
      ensures NamesView() == WithSys(old(NamesView()), sys) && numSys == |systems| && i == Map(nameCache, sys)
      ensures scLinks == if sys in old(nameCache) then old(scLinks) else old(scLinks) + [map[]]
    {
      if sys !in nameCache {
        numSys := numSys + 1;
        nameCache := nameCache[sys := numSys];
        systems := systems + [sys];
        numQ := numQ + [0];
        qCache := qCache + [map[]];
        smCache := smCache + [map[]];
        scLinks := scLinks + [map[]];
      }
      i := nameCache[sys];
    }

    /** The number of a machine; fails when the numbers have run out. */
    method GetSm(sysi: int, id: Id) returns (ok: bool, smi: int)
      requires NamesOk(NamesView()) && 1 <= sysi <= |systems| && numSm == |smMap|
      modifies this`numSm, this`smCache, this`smMap
      ensures var r := WithSm(old(NamesView()), sysi, id);
              && ok == r.Some? && |smCache| == |systems|
              && (ok ==> NamesView() == r.value && numSm == |smMap| && smi == Map(smCache[sysi - 1], id))
    {
      if id !in smCache[sysi - 1] {
        if numSm + 1 >= MAX_ID {
          return false, 0;
        }
        numSm := numSm + 1;
        smCache := smCache[sysi - 1 := smCache[sysi - 1][id := numSm]];
        smMap := smMap + [(sysi, id)];
      }
      ok, smi := true, smCache[sysi - 1][id];
    }

    /** The number of a queue; fails when the numbers have run out. */
    method GetQ(sysi: int, id: Id) returns (ok: bool, qi: int)
      requires NamesOk(NamesView()) && 1 <= sysi <= |systems| && numQs == |qMap| && QueuesOk(QueuesView())
      modifies this`numQs, this`numQ, this`qCache, this`qMap, this`qSize, this`qBytes, this`qData
      ensures var r := WithQ(old(NamesView()), sysi, id);
              && ok == r.Some? && |qCache| == |systems|
              && (ok ==> NamesView() == r.value && numQs == |qMap| && qi == Map(qCache[sysi - 1], id))
              && (ok ==> QueuesView() == if id in old(qCache)[sysi - 1] then old(QueuesView())
                 else WithQueue(old(QueuesView())))
    {
      if id !in qCache[sysi - 1] {
        if numQs + 1 >= MAX_ID {
          return false, 0;
        }
        NewQueue(sysi, id);
      }
      ok, qi := true, qCache[sysi - 1][id];
    }

    method NewQueue(sysi: int, id: Id)
      requires NamesOk(NamesView()) && 1 <= sysi <= |systems| && numQs == |qMap| && QueuesOk(QueuesView())
      requires id !in qCache[sysi - 1] && |qMap| + 1 < MAX_ID
      modifies this`numQs, this`numQ, this`qCache, this`qMap, this`qSize, this`qBytes, this`qData
      ensures WithQ(old(NamesView()), sysi, id) == Some(NamesView()) && numQs == |qMap|
      ensures QueuesView() == WithQueue(old(QueuesView())) && |qCache| == |systems| && id in qCache[sysi - 1]
    {
      numQs := numQs + 1;
      qCache := qCache[sysi - 1 := qCache[sysi - 1][id := numQs]];
      EmptyQueue();
      numQ := numQ[sysi - 1 := numQ[sysi - 1] + 1];
      qMap := qMap + [(sysi, id)];
    }

    method EmptyQueue()
      requires QueuesOk(QueuesView())
      modifies this`qSize, this`qBytes, this`qData
      ensures QueuesView() == WithQueue(old(QueuesView()))
    {
      qSize := qSize + [0];
      qBytes := qBytes + [0];
      qData := qData + [[]];
    }

    /** The number of a state of a machine, by their names. */
    method GetSt(sm: string, name: string) returns (sti: int)
      requires StatesOk(StatesView()) && StateCounts()
      modifies this`numSmt, this`smtCache, this`numSt, this`stCache, this`smtNames, this`stNames
      ensures StatesView() == WithSt(old(StatesView()), sm, name) && StateCounts()
              && sti == StNo(StatesView(), sm, name)
    {
      ghost var s := StatesView();
      StNoIs(s, sm, name);
      var smi := GetTable(sm);
      ghost var padded := StatesView();
      sti := NameState(smi, name);
      assert StateIn(padded, smi - 1, name) == WithSt(s, sm, name);
    }

    method GetTable(sm: string) returns (smi: int)
      requires StatesOk(StatesView()) && StateCounts()
      modifies this`numSmt, this`smtCache, this`numSt, this`stCache, this`smtNames, this`stNames
      ensures var s1 := WithSmt(old(StatesView()), sm);
              StatesView() == Padded(s1, s1.smtCache[sm]) && StateCounts() && smi == s1.smtCache[sm]
    {
      smi := GetSmt(sm);
      Pad(smi);
    }

    method NameState(smi: int, name: string) returns (sti: int)
      requires StatesOk(StatesView()) && StateCounts() && 1 <= smi <= |stCache|
      modifies this`numSt, this`stCache, this`stNames
      ensures StatesView() == StateIn(old(StatesView()), smi - 1, name) && StateCounts()
      ensures |stCache| == |old(stCache)| && sti == Map(stCache[smi - 1], name)
    {
      if name !in stCache[smi - 1] {
        SizesUpdate(stNames, smi - 1, stNames[smi - 1] + [name]);
        numSt := numSt[smi - 1 := numSt[smi - 1] + 1];
        stCache := stCache[smi - 1 := stCache[smi - 1][name := numSt[smi - 1]]];
        stNames := stNames[smi - 1 := stNames[smi - 1] + [name]];
      }
      sti := stCache[smi - 1][name];
    }

    ghost predicate StateCounts()
      reads this`numSmt, this`smtNames, this`numSt, this`stNames
    {
      numSmt == |smtNames| && numSt == Sizes(stNames)
    }

    method GetSmt(sm: string) returns (smi: int)
      requires StatesOk(StatesView()) && StateCounts()
      modifies this`numSmt, this`smtCache, this`smtNames
      ensures StatesView() == WithSmt(old(StatesView()), sm) && StateCounts() && sm in smtCache && smi == smtCache[sm]
    {
      if sm !in smtCache {
        numSmt := numSmt + 1;
        smtCache := smtCache[sm := numSmt];
        smtNames := smtNames + [sm];
      }
      smi := smtCache[sm];
    }

    /** Makes state tables for the first n machine names. */
    method Pad(n: int)
      requires StatesOk(StatesView()) && StateCounts() && 0 <= n <= |smtNames|
      modifies this`numSt, this`stCache, this`stNames
      ensures StatesView() == Padded(old(StatesView()), n) && StateCounts()
    {
      while |stCache| < n
        invariant StatesOk(StatesView()) && StateCounts() && Padded(StatesView(), n) == Padded(old(StatesView()), n)
      {
        PadOne(StatesView(), n);
        assert (stNames + [[]])[..|stNames|] == stNames;
        stCache := stCache + [map[]];
        numSt := numSt + [0];
        stNames := stNames + [[]];
      }
    }

    // ----- the trace

    /** The pending list holds the records not yet written, in order. */
    ghost predicate Listed()
      reads this`pool, this`data, this`written
    {
      |written| <= |pool| && data == Range(|written|, |pool|)
    }

    /** Writes out pending records, up to the first one held back unless `all` is set. */
    method Dump(all: bool)
      requires Listed()
      modifies this`data, this`written, this`forced
      ensures Listed() && TraceView() == Dumped(old(TraceView()), all)
    {
      if data == [] || (!all && |data| < BATCH) {
        DumpsNothing(TraceView(), all);
        forced := forced || all;
      } else {
        DumpPending(all);
      }
    }

    method DumpPending(all: bool)
      requires Listed() && data != [] && (all || |data| >= BATCH)
      modifies this`data, this`written, this`forced
      ensures Listed() && TraceView() == Dumped(old(TraceView()), all)
    {
      DumpsSome(TraceView(), all);
      forced := forced || all;
      WriteSome(all);
    }

    method WriteSome(all: bool)
      requires Listed() && data != []
      modifies this`data, this`written
      ensures Listed() && (var w := |old(written)|;
                           written == old(written) + Forms(pool[w..w + Writable(pool, w, all)]))
    {
      var n, out := WriteOut(pool, data, all);
      RangeFrom(|written|, n, |pool|);
      written := written + out;
      data := data[n..];
    }

    /** Adds a record to the trace; anything but a link may set off a write-out. */
    method Add(r: Rec)
      requires Listed()
      modifies this`pool, this`data, this`left, this`written, this`forced
      ensures Listed() && TraceView() == Added(old(TraceView()), r) && left == old(left) + [r.count]
    {
      Append(r);
      if r.op != OP_LINK {
        Dump(false);
      }
    }

    method Append(r: Rec)
      requires Listed()
      modifies this`pool, this`data, this`left
      ensures Listed() && pool == old(pool) + [r] && left == old(left) + [r.count]
    {
      data := data + [|pool|];
      pool := pool + [r];
      left := left + [r.count];
    }

    // ----- the queues

    /** Queue k takes in record x, at the back or at the front. */
    method Push(k: nat, x: nat, front: bool)
      requires QueuesOk(QueuesView()) && k < |qData| && Free(QueuesView(), x) && left[x] >= 0
      modifies this`qSize, this`qBytes, this`qData
      ensures QueuesView() == Enqueued(old(QueuesView()), k, x, front)
    {
      EnqueuedIs(QueuesView(), k, x, front);
      qSize := qSize[k := qSize[k] + 1];
      qBytes := qBytes[k := qBytes[k] + left[x]];
      qData := qData[k := if front then [x] + qData[k] else qData[k] + [x]];
    }

    method Clear(k: nat)
      requires QueuesOk(QueuesView()) && k < |qData|
      modifies this`qSize, this`qBytes, this`qData
      ensures QueuesView() == Emptied(old(QueuesView()), k)
    {
      qData := qData[k := []];
      qSize := qSize[k := 0];
      qBytes := qBytes[k := 0];
    }

    /** Takes bytes off the front of queue k; the checks inside the loop never fail. */
    method TakeBytes(k: nat, count: nat)
      requires QueuesOk(QueuesView()) && k < |qData| && count <= qBytes[k]
      modifies this`qSize, this`qBytes, this`qData, this`left
      ensures QueuesView() == Dequeued(old(QueuesView()), k, count)
    {
      QueueCounts(QueuesView(), k);
      qBytes := qBytes[k := qBytes[k] - count];
      var rest, size;
      left, rest, size := Consume(left, qData[k], qSize[k], count);
      qData := qData[k := rest];
      qSize := qSize[k := size];
    }

    /** Takes bytes off the back of queue k; the checks inside the loop never fail. */
    method CutBytes(k: nat, count: nat)
      requires QueuesOk(QueuesView()) && k < |qData| && count <= qBytes[k]
      modifies this`qSize, this`qBytes, this`qData, this`left
      ensures QueuesView() == Cut(old(QueuesView()), k, count)
    {
      QueueCounts(QueuesView(), k);
      qBytes := qBytes[k := qBytes[k] - count];
      var rest, size;
      left, rest, size := Trim(left, qData[k], qSize[k], count);
      qData := qData[k := rest];
      qSize := qSize[k := size];
    }

    // ----- the same on the whole annotator

    method SystemOf(sys: int) returns (i: int)
      requires Valid()
      modifies this`nameCache, this`numSys, this`systems, this`numQ, this`qCache, this`smCache, this`scLinks
      ensures Valid() && View() == AnnotateModel.GetSys(old(View()), sys) && i == SysNo(View(), sys)
    {
      Open(View());
      ghost var goal := AnnotateModel.GetSys(View(), sys);
      i := GetSys(sys);
      assert View() == goal;
    }

    method MachineOf(sysi: int, id: Id) returns (ok: bool, smi: int)
      requires Valid() && 1 <= sysi <= |systems|
      modifies this`numSm, this`smCache, this`smMap
      ensures var r := AnnotateModel.GetSm(old(View()), sysi, id);
              ok == r.Some? && (ok ==> Valid() && View() == r.value && smi == SmNo(View(), sysi, id))
    {
      Open(View());
      ghost var goal := AnnotateModel.GetSm(View(), sysi, id);
      ok, smi := GetSm(sysi, id);
      assert ok ==> View() == goal.value;
    }

    method QueueOf(sysi: int, id: Id) returns (ok: bool, qi: int)
      requires Valid() && 1 <= sysi <= |systems|
      modifies this`numQs, this`numQ, this`qCache, this`qMap, this`qSize, this`qBytes, this`qData
      ensures var r := AnnotateModel.GetQ(old(View()), sysi, id);
              ok == r.Some? && (ok ==> Valid() && View() == r.value && qi == QNo(View(), sysi, id))
    {
      GetQIs(View(), sysi, id);
      ok, qi := GetQ(sysi, id);
    }

    method Record(r: Rec)
      requires Valid() && r.dump && (r.op == OP_LINK ==> 1 <= r.stq <= |smMap|)
      modifies this
      ensures Valid() && View() == AddRec(old(View()), r)
    {
      Lengths(View());
      CountedAdd(r);
      assert View() == AddRec(old(View()), r);
    }

    method CountedAdd(r: Rec)
      requires Counted() && |written| <= |pool|
      modifies this`pool, this`data, this`left, this`written, this`forced
      ensures Counted() && TraceView() == Added(old(TraceView()), r) && left == old(left) + [r.count]
    {
      Add(r);
    }

    /** Queues bytes under a new record. */
    method DoQ(now: nat, flags: bv8, cpu: int, sm: int, qi: int, count: nat)
      requires Valid() && 1 <= qi <= |qMap|
      modifies this
      ensures Valid() && View() == AnnotateModel.DoQ(old(View()), now, flags, cpu, sm, qi, count)
    {
      ghost var st1 := AddRec(View(), Made(now, OP_QUEUE, flags, cpu, sm, qi, count));
      NewIsFree(count);
      var x := |pool|;
      Record(Made(now, OP_QUEUE, flags, cpu, sm, qi, count));
      TakeIn(qi - 1, x, AtFront(flags));
    }

    lemma NewIsFree(count: int)
      requires Valid()
      ensures Free(WithRecord(QueuesView(), count), |pool|) && WithRecord(QueuesView(), count).left[|pool|] == count
      ensures |qData| == |qMap|
    {
      Open(View());
      NewestIsFree(QueuesView(), count);
    }

    method TakeIn(k: nat, x: nat, front: bool)
      requires Valid() && k < |qData| && Free(QueuesView(), x) && left[x] >= 0
      modifies this`qSize, this`qBytes, this`qData
      ensures Valid() && (Open(old(View())); View() == old(View()).(queues := Enqueued(old(QueuesView()), k, x, front)))
    {
      Open(View());
      ghost var goal := WithEnqueued(View(), k, x, front);
      Push(k, x, front);
      assert View() == goal;
    }

    method Forget(k: nat)
      requires Valid() && k < |qData|
      modifies this
      ensures Valid() && View() == WithEmptied(old(View()), k)
    {
      Open(View());
      ghost var goal := WithEmptied(View(), k);
      Clear(k);
      assert View() == goal;
    }

    method Take(k: nat, count: nat)
      requires Valid() && k < |qData| && count <= BytesIn(View(), k)
      modifies this
      ensures Valid() && View() == WithDequeued(old(View()), k, count)
    {
      Open(View());
      ghost var goal := WithDequeued(View(), k, count);
      TakeBytes(k, count);
      assert View() == goal;
    }

    method CutOff(k: nat, count: nat)
      requires Valid() && k < |qData| && count <= BytesIn(View(), k)
      modifies this
      ensures Valid() && View() == WithCut(old(View()), k, count)
    {
      Open(View());
      ghost var goal := WithCut(View(), k, count);
      CutBytes(k, count);
      assert View() == goal;
    }

    /**
     Dequeues bytes, or everything for -1. Fails when the queue holds fewer
     bytes, after writing out the whole trace, or when the count is no count.
     */
    method DoDq(now: nat, flags: bv8, cpu: int, sm: int, qi: int, count: int) returns (ok: bool)
      requires Valid() && 1 <= qi <= |qMap|
      modifies this
      ensures (ok ==> Valid()) && Result(ok) == AnnotateModel.DoDq(old(View()), now, flags, cpu, sm, qi, count)
    {
      var k := qi - 1;
      Lengths(View());
      QueueNumbers(k);
      if count == -1 {
        DequeueAll(Made(now, OP_DEQUEUE, flags, cpu, sm, qi, count), k);
        return true;
      }
      if count <= 0 {
        return false;
      }
      ok := DequeueBytes(Made(now, OP_DEQUEUE, flags, cpu, sm, qi, count), k, count);
    }

    method DequeueBytes(r: Rec, k: nat, count: nat) returns (ok: bool)
      requires Valid() && k < |qData| && count > 0 && r.dump && r.op == OP_DEQUEUE
      modifies this
      ensures ok == (count <= BytesIn(old(View()), k)) && (ok ==> Valid())
      ensures if ok then View() == AddRec(WithDequeued(old(View()), k, count), r)
              else TraceView() == Dumped(old(TraceView()), true)
    {
      Lengths(View());
      QueueNumbers(k);
      if qSize[k] <= 0 || qBytes[k] <= 0 || qData[k] == [] || qBytes[k] - count < 0 {
        Dump(true);
        return false;
      }
      DequeueSome(r, k, count);
      ok := true;
    }

    method DequeueAll(r: Rec, k: nat)
      requires Valid() && k < |qData| && r.dump && r.op == OP_DEQUEUE
      modifies this
      ensures Valid() && View() == WithEmptied(AddRec(old(View()), r), k)
    {
      Record(r);
      Forget(k);
    }

    method DequeueSome(r: Rec, k: nat, count: nat)
      requires Valid() && k < |qData| && count <= BytesIn(View(), k) && r.dump && r.op == OP_DEQUEUE
      modifies this
      ensures Valid() && View() == AddRec(WithDequeued(old(View()), k, count), r)
    {
      Take(k, count);
      Record(r);
    }

    /** A queue without records holds no bytes. */
    lemma QueueNumbers(k: int)
      requires Valid() && 0 <= k < |qData| && k < |qSize| && k < |qBytes|
      ensures qSize[k] == |qData[k]| && (qData[k] == [] ==> qBytes[k] == 0) && qBytes[k] == |StreamOf(View(), k)|
    {
      Open(View());
      assert QueueOk(QueuesView(), k);
      BytesNat(View(), k);
    }

    /** Grows or cuts a queue at the back. */
    method Settle(now: nat, cpu: int, sm: int, qi: int, size: int)
      requires Valid() && 1 <= qi <= |qMap|
      modifies this
      ensures Valid() && View() == Settled(old(View()), now, cpu, sm, qi, size)
    {
      var k := qi - 1;
      Lengths(View());
      BytesNat(View(), k);
      if qBytes[k] < size {
        DoQ(now, FL_NONE, cpu, sm, qi, size - qBytes[k]);
      } else if qBytes[k] > size {
        CutBack(now, cpu, sm, qi, size);
      }
    }

    method CutBack(now: nat, cpu: int, sm: int, qi: int, size: int)
      requires Valid() && 1 <= qi <= |qMap| && BytesIn(View(), qi - 1) > size
      modifies this
      ensures Valid() && View() == CutDown(old(View()), now, cpu, sm, qi, size)
    {
      Lengths(View());
      Record(Made(now, OP_SIZE_QUEUE, FL_NONE, cpu, sm, qi, size));
      if size <= 0 {
        Forget(qi - 1);
      } else {
        CutOff(qi - 1, qBytes[qi - 1] - size);
      }
    }

    /** Sets the size of a queue, after emptying it if asked to. */
    method Resize(now: nat, cpu: int, sm: int, qi: int, size: int, flags: bv8)
      requires Valid() && 1 <= qi <= |qMap|
      modifies this
      ensures Valid() && View() == SetSize(old(View()), now, cpu, sm, qi, size, flags)
    {
      Lengths(View());
      if flags & FL_RESET != 0 {
        Record(Made(now, OP_SIZE_QUEUE, FL_NONE, cpu, sm, qi, 0));
        Forget(qi - 1);
      }
      Settle(now, cpu, sm, qi, size);
    }

    // ----- state machines

    function StackOf(sid: StackId): seq<int>
      reads this`smStack
    {
      if sid in smStack then smStack[sid] else []
    }

    method PushMachine(sid: StackId, smi: int)
      requires Valid() && 1 <= smi <= |smMap| && smMap[smi - 1].0 == sid.sys
      modifies this`smStack
      ensures Valid() && View() == Stacked(old(View()), sid, smi)
    {
      ghost var goal := Stacked(View(), sid, smi);
      smStack := smStack[sid := StackOf(sid) + [smi]];
      assert View() == goal;
    }

    method LinkPrevious(now: nat, cpu: int, prev: int, smi: int)
      requires Valid() && 1 <= prev <= |smMap| && 1 <= smi <= |smMap|
      modifies this
      ensures Valid() && View() == LinkFrom(old(View()), now, cpu, prev, smi)
    {
      SetLink(smi, prev);
      Record(Made(now, OP_LINK, FL_NONE, cpu, prev, smi, 0));
    }

    method SetLink(smi: int, to: int)
      requires Valid() && 1 <= to <= |smMap|
      modifies this`lnMap
      ensures Valid() && View() == old(View()).(machines := old(View()).machines.(lnMap := old(lnMap)[smi := to]))
    {
      Open(View());
      lnMap := lnMap[smi := to];
    }

    method DropLink(smi: int)
      requires Valid()
      modifies this`lnMap
      ensures Valid() && View() == old(View()).(machines := old(View()).machines.(lnMap := old(lnMap) - {smi}))
    {
      Open(View());
      lnMap := lnMap - {smi};
    }

    /** Takes a link out of the table and lets it be written, now that its target is known. */
    method Release(s: nat, id: Id, an: nat, smi: int)
      requires Valid() && s < |scLinks| && id in scLinks[s] && an == scLinks[s][id] && TargetOk(smMap, smi, (s, id))
      modifies this
      ensures Valid() && View() == Released(old(View()), s, id, smi)
    {
      ghost var goal := Released(View(), s, id, smi);
      scLinks := scLinks[s := scLinks[s] - {id}];
      pool := pool[an := pool[an].(stq := smi, dump := true)];
      assert View() == goal;
    }

    /** Gives a machine that begins the link that waits for it; fails when it is linked already. */
    method ResolveLink(sid: StackId, sm: string, smi: int) returns (ok: bool)
      requires Valid() && IsMachine(View(), smi, sid.sys, sm) && 1 <= sid.sys <= |systems|
      modifies this
      ensures (ok ==> Valid()) && Result(ok) == Resolve(old(View()), sid, sm, smi)
    {
      Lengths(View());
      var s, id := sid.sys - 1, Id(sm, sid.frame);
      if id !in scLinks[s] {
        return true;
      }
      WaitingLinkIs(sid, sm);
      var an := scLinks[s][id];
      var from := pool[an].sm;
      Release(s, id, an, smi);
      if Map(lnMap, smi) != 0 {
        return false;
      }
      SetLink(smi, from);
      ok := true;
    }

    lemma WaitingLinkIs(sid: StackId, sm: string)
      requires Valid() && Waiting(View(), sid, sm)
      ensures WaitingLink(View(), sid, sm) < |pool| && 1 <= pool[WaitingLink(View(), sid, sm)].sm <= |smMap|
    {
      Open(View());
      assert FileOk(Links(scLinks, awaited), pool, sid.sys - 1, Id(sm, sid.frame));
      assert RecOk(smMap, Links(scLinks, awaited), pool, WaitingLink(View(), sid, sm));
    }

    /** Starts a machine that has its number. */
    method StartMachine(now: nat, cpu: int, sid: StackId, sm: string, smi: int, flags: bv8) returns (ok: bool)
      requires Valid() && IsMachine(View(), smi, sid.sys, sm) && 1 <= sid.sys <= |systems|
      modifies this
      ensures (ok ==> Valid()) && Result(ok) == Start(old(View()), now, cpu, sid, sm, smi, flags)
    {
      if flags & FL_LINK != 0 && StackOf(sid) != [] {
        if Map(lnMap, smi) != 0 {
          return false;
        }
        TopIsMachine(View(), sid);
        LinkPrevious(now, cpu, StackOf(sid)[|StackOf(sid)| - 1], smi);
      }
      PushMachine(sid, smi);
      ok := ResolveLink(sid, sm, smi);
    }

    /** Records the first state of a machine, if that is known. */
    method StateBegin(now: nat, cpu: int, smi: int, sm: string, name: string)
      requires Valid()
      modifies this
      ensures Valid() && View() == MaybeBegin(old(View()), now, cpu, smi, sm, name)
    {
      if name != "" {
        var sti := StateOf(sm, name);
        SetLast(smi, sti);
        Record(Made(now, OP_BEGIN, FL_NONE, cpu, smi, sti, 0));
      }
    }

    method StateOf(sm: string, name: string) returns (sti: int)
      requires Valid()
      modifies this`numSmt, this`smtCache, this`numSt, this`stCache, this`smtNames, this`stNames
      ensures Valid() && View() == WithState(old(View()), sm, name) && sti == NextSt(old(StatesView()), sm, name)
    {
      StatesPart(View());
      sti := CountedSt(sm, name);
      assert View() == WithState(old(View()), sm, name);
    }

    method CountedSt(sm: string, name: string) returns (sti: int)
      requires Counted() && StatesOk(StatesView())
      modifies this`numSmt, this`smtCache, this`numSt, this`stCache, this`smtNames, this`stNames
      ensures Counted() && StatesView() == WithSt(old(StatesView()), sm, name) && sti == StNo(StatesView(), sm, name)
    {
      sti := GetSt(sm, name);
    }

    lemma StatesPart(st: State)
      requires Inv(st)
      ensures StatesOk(st.states)
    {
      Open(st);
    }

    method SetLast(smi: int, sti: int)
      requires Valid()
      modifies this`lastState
      ensures Valid() && View() == WithLast(old(View()), smi, sti)
    {
      ghost var goal := WithLast(View(), smi, sti);
      lastState := lastState[smi := sti];
      assert View() == goal;
    }

    /** Begins a machine; fails when it would be linked twice, or when the numbers have run out. */
    method SwSmBegin(now: nat, cpu: int, sys: int, frame: nat, sm: string, id: nat, flags: bv8,
                     name: string) returns (ok: bool)
      requires Valid()
      modifies this
      ensures (ok ==> Valid()) && Result(ok) == SmBegin(old(View()), now, cpu, sys, frame, sm, id, flags, name)
    {
      var sysi, smi;
      sysi, ok, smi := Identify(sys, Id(sm, id));
      if ok {
        ok := BeginNumbered(now, cpu, StackId(sysi, frame), sm, smi, flags, name);
      }
    }

    method Identify(sys: int, id: Id) returns (sysi: int, ok: bool, smi: int)
      requires Valid()
      modifies this
      ensures var r := Named(old(View()), sys, id);
              && ok == r.Some? && TraceView() == old(TraceView())
              && (ok ==> Valid() && View() == r.value && sysi == SysNo(View(), sys) && smi == SmNo(View(), sysi, id))
    {
      sysi := SystemOf(sys);
      ok, smi := MachineOf(sysi, id);
    }

    method BeginNumbered(now: nat, cpu: int, sid: StackId, sm: string, smi: int, flags: bv8,
                         name: string) returns (ok: bool)
      requires Valid() && IsMachine(View(), smi, sid.sys, sm) && 1 <= sid.sys <= |systems|
      modifies this
      ensures (ok ==> Valid()) && Result(ok) == Begun(old(View()), now, cpu, sid, sm, smi, flags, name)
    {
      ok := StartMachine(now, cpu, sid, sm, smi, flags);
      if ok {
        StateBegin(now, cpu, smi, sm, name);
      }
    }

    // ----- ends

    method PopMachine(sid: StackId)
      requires Valid() && StackOf(sid) != []
      modifies this`smStack
      ensures Valid() && View() == Popped(old(View()), sid)
    {
      ghost var goal := Popped(View(), sid);
      smStack := smStack[sid := StackOf(sid)[..|StackOf(sid)| - 1]];
      assert View() == goal;
    }

    method LinkBack(now: nat, cpu: int, smi: int)
      requires Valid()
      modifies this
      ensures Valid() && View() == LinkedBack(old(View()), now, cpu, smi)
    {
      if Map(lnMap, smi) != 0 {
        Open(View());
        var to := lnMap[smi];
        DropLink(smi);
        Record(Made(now, OP_LINK, FL_NONE, cpu, smi, to, 0));
      }
    }

    method Unwind(now: nat, cpu: int, sid: StackId, smi: int)
      requires Valid() && StackOf(sid) != []
      modifies this
      ensures Valid() && View() == Unwound(old(View()), now, cpu, sid, smi)
    {
      PopMachine(sid);
      LinkBack(now, cpu, smi);
      if StackOf(sid) != [] {
        Record(Made(now, OP_BEGIN, FL_NONE, cpu, smi, Map(lastState, smi), 0));
      }
    }

    /** Ends the machine on top of a stack if it has the given name; the number read back for it is its own. */
    method EndMachine(now: nat, cpu: int, sid: StackId, sm: string)
      requires Valid() && 1 <= sid.sys <= |systems| && StackOf(sid) != []
      modifies this
      ensures Valid() && View() == EndTop(old(View()), now, cpu, sid, sm)
    {
      var smib := StackOf(sid)[|StackOf(sid)| - 1];
      TopIsMachine(View(), sid);
      if smMap[smib - 1].1.name == sm {
        ReadAgain(sid, smib);
        Unwind(now, cpu, sid, smib);
      }
    }

    /** Reads the number of the machine on top back by its name and context, and finds its own. */
    method ReadAgain(sid: StackId, smib: int)
      requires Valid() && 1 <= sid.sys <= |systems| && StackOf(sid) != [] && smib == Top(View(), sid)
      modifies this`numSm, this`smCache, this`smMap
      ensures Valid() && View() == old(View())
    {
      AnnotateModel.ReadBack(View(), sid);
      var ok, again := MachineOf(sid.sys, smMap[smib - 1].1);
      assert ok && again == smib;
    }

    method DoSwSmEnd(now: nat, cpu: int, sys: int, sm: string, frame: nat)
      requires Valid() && SmEnd(View(), now, cpu, sys, sm, frame).Fine?
      modifies this
      ensures Valid() && Fine(View()) == SmEnd(old(View()), now, cpu, sys, sm, frame)
    {
      var sysi := SystemOf(sys);
      EndMachine(now, cpu, StackId(sysi, frame), sm);
    }

    // ----- announced links

    /** Adds a link that waits for a machine, held back and filed under that machine. */
    method HoldLink(now: nat, cpu: int, smi: int, sid: StackId, lsm: string)
      requires Valid() && 1 <= smi <= |smMap| && 1 <= sid.sys <= |systems| && !Waiting(View(), sid, lsm)
      modifies this
      ensures Valid() && View() == Hold(old(View()), now, cpu, smi, sid, lsm)
    {
      Lengths(View());
      ghost var goal := Hold(View(), now, cpu, smi, sid, lsm);
      var s, an := sid.sys - 1, |pool|;
      Append(Made(now, OP_LINK, FL_NONE, cpu, smi, UNKNOWN, 0));
      var links: map<Id, nat> := scLinks[s][Id(lsm, sid.frame) := an];
      scLinks := scLinks[s := links];
      awaited := awaited[an := (s, Id(lsm, sid.frame))];
      pool := pool[an := pool[an].(dump := false)];
      assert View() == goal;
    }

    method AnnounceMachine(now: nat, cpu: int, sid: StackId, lsm: string, end: Option<string>)
      requires Valid() && 1 <= sid.sys <= |systems| && StackOf(sid) != [] && !Waiting(View(), sid, lsm)
      modifies this
      ensures Valid() && View() == AnnounceOn(old(View()), now, cpu, sid, lsm, end)
    {
      TopIsMachine(View(), sid);
      HoldLink(now, cpu, StackOf(sid)[|StackOf(sid)| - 1], sid, lsm);
      if end.Some? {
        EndMachine(now, cpu, sid, end.value);
      }
    }

    /** The running machine announces another through a system call; fails when that is announced already. */
    method SwSyscallLink(now: nat, cpu: int, sys: int, frame: nat, lsm: string, end: Option<string>) returns (ok: bool)
      requires Valid()
      modifies this
      ensures (ok ==> Valid()) && Result(ok) == SyscallLink(old(View()), now, cpu, sys, frame, lsm, end)
    {
      var sysi := SystemOf(sys);
      Lengths(View());
      var sid := StackId(sysi, frame);
      if StackOf(sid) == [] {
        return true;
      }
      if Id(lsm, frame) in scLinks[sysi - 1] {
        return false;
      }
      AnnounceMachine(now, cpu, sid, lsm, end);
      ok := true;
    }

    // ----- calls on queues

    ghost function Found(ok: bool, smi: int, qi: int): Place
      reads this
    {
      if !ok then NoNumber else if qi == 0 then Nowhere(View()) else On(View(), smi, qi)
    }

    /** Where a queue call acts; qi is 0 when no machine runs. */
    method Find(sys: int, frame: nat, id: Id) returns (ok: bool, smi: int, qi: int)
      requires Valid()
      modifies this`nameCache, this`numSys, this`systems, this`numQ, this`qCache, this`smCache, this`scLinks,
               this`numQs, this`qMap, this`qSize, this`qBytes, this`qData
      ensures (ok ==> Valid()) && Found(ok, smi, qi) == Locate(old(View()), sys, frame, id)
    {
      var sysi := SystemOf(sys);
      var st := StackOf(StackId(sysi, frame));
      if st == [] {
        return true, 0, 0;
      }
      smi := st[|st| - 1];
      ok, qi := QueueOf(sysi, id);
    }

    method QPlaced(ghost st: State, found: bool, smi: int, qi: int, now: nat, cpu: int, count: nat) returns (ok: bool)
      requires (found ==> Valid()) && PlaceOk(st, Found(found, smi, qi)) && TraceView() == st.trace
      modifies this
      ensures ok ==> Valid()
      ensures Result(ok) == QOn(st, st.trace, old(Found(found, smi, qi)), now, cpu, count)
    {
      ok := found;
      if found && qi != 0 && count != 0 {
        DoQ(now, FL_NONE, cpu, smi, qi, count);
      }
    }

    method SwQ(now: nat, cpu: int, sys: int, frame: nat, id: Id, count: nat) returns (ok: bool)
      requires Valid()
      modifies this
      ensures (ok ==> Valid()) && Result(ok) == AnnotateModel.SwQ(old(View()), now, cpu, sys, frame, id, count)
    {
      ghost var st := View();
      LocatedPlace(st, sys, frame, id);
      var found, smi, qi := Find(sys, frame, id);
      ok := QPlaced(st, found, smi, qi, now, cpu, count);
    }

    method DqPlaced(ghost st: State, found: bool, smi: int, qi: int, now: nat, cpu: int, count: int) returns (ok: bool)
      requires (found ==> Valid()) && PlaceOk(st, Found(found, smi, qi)) && TraceView() == st.trace
      modifies this
      ensures ok ==> Valid()
      ensures Result(ok) == DqOn(st, st.trace, old(Found(found, smi, qi)), now, cpu, count)
    {
      ok := found;
      if found && qi != 0 {
        ok := DoDq(now, FL_NONE, cpu, smi, qi, count);
      }
    }

    method SwDq(now: nat, cpu: int, sys: int, frame: nat, id: Id, count: int) returns (ok: bool)
      requires Valid()
      modifies this
      ensures (ok ==> Valid()) && Result(ok) == AnnotateModel.SwDq(old(View()), now, cpu, sys, frame, id, count)
    {
      ghost var st := View();
      LocatedPlace(st, sys, frame, id);
      var found, smi, qi := Find(sys, frame, id);
      ok := DqPlaced(st, found, smi, qi, now, cpu, count);
    }

    method SqPlaced(ghost st: State, found: bool, smi: int, qi: int, now: nat, cpu: int, size: int,
                    flags: bv8) returns (ok: bool)
      requires (found ==> Valid()) && PlaceOk(st, Found(found, smi, qi)) && TraceView() == st.trace
      modifies this
      ensures ok ==> Valid()
      ensures Result(ok) == SqOn(st, st.trace, old(Found(found, smi, qi)), now, cpu, size, flags)
    {
      ok := found;
      if found && qi != 0 {
        Resize(now, cpu, smi, qi, size, flags);
      }
    }

    method SwSq(now: nat, cpu: int, sys: int, frame: nat, id: Id, size: int, flags: bv8) returns (ok: bool)
      requires Valid()
      modifies this
      ensures (ok ==> Valid()) && Result(ok) == AnnotateModel.SwSq(old(View()), now, cpu, sys, frame, id, size, flags)
    {
      ghost var st := View();
      LocatedPlace(st, sys, frame, id);
      var found, smi, qi := Find(sys, frame, id);
      ok := SqPlaced(st, found, smi, qi, now, cpu, size, flags);
    }

    /** The exit callback writes out everything. */
    method WriteAll()
      requires Valid()
      modifies this
      ensures Valid() && View() == old(View()).(trace := Dumped(old(TraceView()), true))
    {
      Open(View());
      DumpedOk(TraceView(), true);
      Dump(true);
      assert InvParts(View(), 0);
    }
  }
}
