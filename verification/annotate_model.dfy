/**
 The critical-path annotator of base/cp_annotate as a value: what every call does
 to the tables, the stacks, the queues, the pending links and the trace.

 The invariant and the two relations between states have many parts, which most
 proofs only pass on. Each is therefore stated as "for all `fold`, the parts
 hold", where the parts ignore `fold`: that is the same as the parts themselves,
 but the verifier looks inside only where a proof names an instance. `Open` and
 `OpenGoes` do so, and give the parts.
 */
module AnnotateModel {
  import opened Basics
  import opened AnnotateNames
  import opened AnnotateQueues
  import opened AnnotateTrace

  /** A context: a system and a frame. */
  datatype StackId = StackId(sys: int, frame: nat)

  /** Running machines by context, links between machines, and the last state of each. */
  datatype Machines = Machines(smStack: map<StackId, seq<int>>, lnMap: map<int, int>, lastState: map<int, int>)

  /** Links by the machine they wait for, and for each link ever announced what it waits or waited for. */
  datatype Links = Links(scLinks: seq<map<Id, nat>>, awaited: map<nat, (int, Id)>)

  datatype State = State(names: Names, states: States, machines: Machines, queues: Queues, links: Links, trace: Trace)

  // ----- the invariant

  /** Every stack holds only machines of its own system, and links lead to machines there are. */
  ghost predicate MachinesOk(m: Machines, smMap: seq<(int, Id)>) {
    && (forall sid, x | sid in m.smStack && x in m.smStack[sid] :: 1 <= x <= |smMap| && smMap[x - 1].0 == sid.sys)
    && (forall x | x in m.lnMap :: 1 <= m.lnMap[x] <= |smMap|)
  }

  /** A machine of the system and with the name a link waits for. */
  ghost predicate TargetOk(smMap: seq<(int, Id)>, smi: int, what: (int, Id)) {
    1 <= smi <= |smMap| && smMap[smi - 1].0 == what.0 + 1 && smMap[smi - 1].1.name == what.1.name
  }

  /** Record i is filed under the machine it waits for. */
  ghost predicate Filed(l: Links, i: nat) {
    && i in l.awaited && 0 <= l.awaited[i].0 < |l.scLinks|
    && l.awaited[i].1 in l.scLinks[l.awaited[i].0] && l.scLinks[l.awaited[i].0][l.awaited[i].1] == i
  }

  /** A record held back is an announced link without a target; any other link has one. */
  ghost predicate RecOk(smMap: seq<(int, Id)>, l: Links, pool: seq<Rec>, i: int) {
    0 <= i < |pool| ==>
      if pool[i].dump then
        && (pool[i].op == OP_LINK ==> 1 <= pool[i].stq <= |smMap|)
        && (i in l.awaited ==> pool[i].op == OP_LINK && TargetOk(smMap, pool[i].stq, l.awaited[i]))
      else
        pool[i].op == OP_LINK && pool[i].stq == UNKNOWN && 1 <= pool[i].sm <= |smMap| && Filed(l, i)
  }

  /** An entry of the link table is a record held back and filed there. */
  ghost predicate FileOk(l: Links, pool: seq<Rec>, s: int, id: Id) {
    0 <= s < |l.scLinks| && id in l.scLinks[s] ==>
      var i := l.scLinks[s][id];
      i < |pool| && !pool[i].dump && i in l.awaited && l.awaited[i] == (s, id)
  }

  ghost predicate LinksOk(smMap: seq<(int, Id)>, l: Links, pool: seq<Rec>) {
    && (forall i {:trigger RecOk(smMap, l, pool, i)} :: RecOk(smMap, l, pool, i))
    && (forall s, id {:trigger FileOk(l, pool, s, id)} :: FileOk(l, pool, s, id))
    && (forall i | i in l.awaited :: i < |pool|)
  }

  /** The parts of the invariant; the parameter only keeps them folded up until they are asked for. */
  ghost predicate InvParts(st: State, fold: int) {
    && NamesOk(st.names) && StatesOk(st.states) && MachinesOk(st.machines, st.names.smMap)
    && TraceOk(st.trace) && QueuesOk(st.queues) && LinksOk(st.names.smMap, st.links, st.trace.pool)
    && |st.links.scLinks| == |st.names.systems| && |st.queues.qData| == |st.names.qMap|
    && |st.queues.left| == |st.trace.pool|
  }

  /** What every call keeps. */
  ghost predicate Inv(st: State) {
    forall fold {:trigger InvParts(st, fold)} :: InvParts(st, fold)
  }

  lemma Open(st: State)
    requires Inv(st)
    ensures NamesOk(st.names) && StatesOk(st.states) && MachinesOk(st.machines, st.names.smMap)
    ensures TraceOk(st.trace) && QueuesOk(st.queues) && LinksOk(st.names.smMap, st.links, st.trace.pool)
    ensures |st.links.scLinks| == |st.names.systems| && |st.queues.qData| == |st.names.qMap|
    ensures |st.queues.left| == |st.trace.pool|
  {
    assert InvParts(st, 0);
  }

  /** The tables are as long as they should be. */
  lemma Lengths(st: State)
    requires Inv(st)
    ensures |st.names.smCache| == |st.names.qCache| == |st.names.numQ| == |st.links.scLinks| == |st.names.systems|
    ensures |st.queues.qSize| == |st.queues.qBytes| == |st.queues.qData| == |st.names.qMap|
    ensures |st.queues.left| == |st.trace.pool| && |st.trace.written| <= |st.trace.pool|
    ensures |st.states.stCache| == |st.states.stNames|
  {
    Open(st);
  }

  /** The bytes a queue holds, by its counter. */
  function BytesIn(st: State, k: int): int {
    if 0 <= k < |st.queues.qBytes| then st.queues.qBytes[k] else 0
  }

  /** What has been named, added, written or announced stays; `fold` keeps the parts folded up. */
  ghost predicate GoesParts(a: State, b: State, fold: int) {
    && NamesKept(a.names, b.names) && StatesKept(a.states, b.states) && Follows(a.trace, b.trace)
    && forall i | i in a.links.awaited :: i in b.links.awaited && b.links.awaited[i] == a.links.awaited[i]
  }

  ghost predicate Goes(a: State, b: State) {
    forall fold {:trigger GoesParts(a, b, fold)} :: GoesParts(a, b, fold)
  }

  lemma OpenGoes(a: State, b: State)
    requires Goes(a, b)
    ensures NamesKept(a.names, b.names) && StatesKept(a.states, b.states) && Follows(a.trace, b.trace)
    ensures forall i | i in a.links.awaited :: i in b.links.awaited && b.links.awaited[i] == a.links.awaited[i]
  {
    assert GoesParts(a, b, 0);
  }

  /** The same, with no write-out forced. */
  ghost predicate Keeps(a: State, b: State) {
    Goes(a, b) && a.trace.forced == b.trace.forced
  }

  /** The queues hold what they held; new ones are empty. */
  ghost predicate QueuesKeptParts(a: Queues, b: Queues, fold: int) {
    && QueuesOk(a) && QueuesOk(b) && |a.qData| <= |b.qData|
    && (forall j | 0 <= j < |a.qData| :: View(b, j) == View(a, j))
    && (forall j | |a.qData| <= j < |b.qData| :: View(b, j) == [])
  }

  ghost predicate QueuesKept(a: Queues, b: Queues) {
    forall fold {:trigger QueuesKeptParts(a, b, fold)} :: QueuesKeptParts(a, b, fold)
  }

  lemma QueuesKeptTransitive(a: Queues, b: Queues, c: Queues)
    requires QueuesKept(a, b) && QueuesKept(b, c)
    ensures QueuesKept(a, c)
  {
    assert QueuesKeptParts(a, b, 0) && QueuesKeptParts(b, c, 0);
  }

  lemma QueuesKeptItself(qs: Queues)
    requires QueuesOk(qs)
    ensures QueuesKept(qs, qs)
  {
  }

  lemma KeepsTransitive(a: State, b: State, c: State)
    requires Goes(a, b) && Goes(b, c)
    ensures Goes(a, c) && (Keeps(a, b) && Keeps(b, c) ==> Keeps(a, c))
  {
    OpenGoes(a, b);
    OpenGoes(b, c);
    FollowsTransitive(a.trace, b.trace, c.trace);
    forall i | 0 <= i < |a.states.stNames|
      ensures a.states.stNames[i] <= c.states.stNames[i]
    {
      assert a.states.stNames[i] <= b.states.stNames[i] <= c.states.stNames[i];
    }
  }

  function Init(): (st: State)
    ensures Inv(st) && st.trace == Trace([], [], false)
  {
    State(Names(map[], [], [], [], [], [], []), States(map[], [], [], []), Machines(map[], map[], map[]),
          Queues([], [], [], []), Links([], map[]), Trace([], [], false))
  }

  // ----- numbers

  /** More machines to name do no harm. */
  lemma LinksOkMore(a: seq<(int, Id)>, b: seq<(int, Id)>, l: Links, pool: seq<Rec>)
    requires LinksOk(a, l, pool) && a <= b
    ensures LinksOk(b, l, pool)
  {
    forall i
      ensures RecOk(b, l, pool, i)
    {
      assert RecOk(a, l, pool, i);
    }
  }

  lemma LinksOkNewSystem(smMap: seq<(int, Id)>, l: Links, pool: seq<Rec>)
    requires LinksOk(smMap, l, pool)
    ensures LinksOk(smMap, l.(scLinks := l.scLinks + [map[]]), pool)
  {
    var l' := l.(scLinks := l.scLinks + [map[]]);
    forall i
      ensures RecOk(smMap, l', pool, i)
    {
      assert RecOk(smMap, l, pool, i);
    }
    forall s, id
      ensures FileOk(l', pool, s, id)
    {
      assert FileOk(l, pool, s, id);
    }
  }

  /** The number of a system, which it has or gets. */
  function SysNo(st: State, sys: int): int {
    Map(st.names.nameCache, sys)
  }

  function GetSys(st: State, sys: int): (r: State)
    requires Inv(st)
    ensures Inv(r) && Keeps(st, r) && r.machines == st.machines && r.queues == st.queues && r.trace == st.trace
    ensures r.names.smMap == st.names.smMap && r.names.qMap == st.names.qMap && r.links.awaited == st.links.awaited
    ensures 1 <= SysNo(r, sys) <= |r.names.systems| && r.names.systems[SysNo(r, sys) - 1] == sys
    ensures sys in st.names.nameCache ==> r == st
    ensures r.links.scLinks == st.links.scLinks || r.links.scLinks == st.links.scLinks + [map[]]
  {
    Open(st);
    var n := WithSys(st.names, sys);
    if sys in st.names.nameCache then st.(names := n)
    else
      LinksOkNewSystem(st.names.smMap, st.links, st.trace.pool);
      st.(names := n, links := st.links.(scLinks := st.links.scLinks + [map[]]))
  }

  function SmNo(st: State, sysi: int, id: Id): int {
    if 1 <= sysi <= |st.names.smCache| then Map(st.names.smCache[sysi - 1], id) else 0
  }

  function GetSm(st: State, sysi: int, id: Id): (r: Option<State>)
    requires Inv(st) && 1 <= sysi <= |st.names.systems|
    ensures r.None? <==> SmNo(st, sysi, id) == 0 && |st.names.smMap| + 1 >= MAX_ID
    ensures r.Some? ==> Inv(r.value) && Keeps(st, r.value) && r.value == st.(names := r.value.names)
    ensures r.Some? ==> r.value.names.systems == st.names.systems && r.value.names.nameCache == st.names.nameCache
    ensures r.Some? ==> var k := SmNo(r.value, sysi, id);
              && 1 <= k <= |r.value.names.smMap|
              && r.value.names.smMap[k - 1] == (sysi, id)
    ensures r.Some? && (sysi, id) in st.names.smMap ==> r.value == st
  {
    Open(st);
    var n := WithSm(st.names, sysi, id);
    if n.None? then None
    else
      LinksOkMore(st.names.smMap, n.value.smMap, st.links, st.trace.pool);
      Some(st.(names := n.value))
  }

  function QNo(st: State, sysi: int, id: Id): int {
    if 1 <= sysi <= |st.names.qCache| then Map(st.names.qCache[sysi - 1], id) else 0
  }

  function GetQ(st: State, sysi: int, id: Id): (r: Option<State>)
    requires Inv(st) && 1 <= sysi <= |st.names.systems|
    ensures r.None? <==> QNo(st, sysi, id) == 0 && |st.names.qMap| + 1 >= MAX_ID
    ensures r.Some? ==> Inv(r.value) && Keeps(st, r.value) && QueuesKept(st.queues, r.value.queues)
    ensures r.Some? ==> r.value == st.(names := r.value.names, queues := r.value.queues)
    ensures r.Some? ==> r.value.names.nameCache == st.names.nameCache && r.value.names.smMap == st.names.smMap
    ensures r.Some? ==> var k := QNo(r.value, sysi, id);
              && 1 <= k <= |r.value.names.qMap|
              && r.value.names.qMap[k - 1] == (sysi, id)
  {
    Open(st);
    var n := WithQ(st.names, sysi, id);
    if n.None? then None
    else Some(st.(names := n.value, queues := QueuesWith(st, sysi, id)))
  }

  // ----- records

  /** The queues once a queue has its number: a new one is empty. */
  function QueuesWith(st: State, sysi: int, id: Id): Queues
    requires 1 <= sysi <= |st.names.qCache| && QueuesOk(st.queues)
  {
    if id in st.names.qCache[sysi - 1] then st.queues else WithQueue(st.queues)
  }

  lemma GetQIs(st: State, sysi: int, id: Id)
    requires Inv(st) && 1 <= sysi <= |st.names.systems|
    ensures NamesOk(st.names) && QueuesOk(st.queues) && 1 <= sysi <= |st.names.qCache|
    ensures var n := WithQ(st.names, sysi, id);
            GetQ(st, sysi, id)
            == if n.None? then None else Some(st.(names := n.value, queues := QueuesWith(st, sysi, id)))
  {
    Open(st);
  }

  lemma LinksOkAdded(smMap: seq<(int, Id)>, l: Links, pool: seq<Rec>, r: Rec)
    requires LinksOk(smMap, l, pool) && r.dump && (r.op == OP_LINK ==> 1 <= r.stq <= |smMap|)
    ensures LinksOk(smMap, l, pool + [r])
  {
    forall i
      ensures RecOk(smMap, l, pool + [r], i)
    {
      assert RecOk(smMap, l, pool, i);
    }
    forall s, id
      ensures FileOk(l, pool + [r], s, id)
    {
      assert FileOk(l, pool, s, id);
    }
  }

  /** One more record in the trace. */
  function AddRec(st: State, r: Rec): (st': State)
    requires Inv(st) && r.dump && (r.op == OP_LINK ==> 1 <= r.stq <= |st.names.smMap|)
    ensures Inv(st') && Keeps(st, st') && QueuesKept(st.queues, st'.queues)
    ensures st' == st.(trace := Added(st.trace, r), queues := WithRecord(st.queues, r.count))
  {
    Open(st);
    LinksOkAdded(st.names.smMap, st.links, st.trace.pool, r);
    WithRecordOk(st.queues, r.count);
    AddedOk(st.trace, r);
    st.(trace := Added(st.trace, r), queues := WithRecord(st.queues, r.count))
  }

  // ----- queues

  /** How a call ends: normally, or with the program stopped and the trace as the file then shows it. */
  datatype Outcome = Fine(st: State) | Stopped(trace: Trace)

  /** Queue k as a stream of bytes; queues not yet made are empty. */
  ghost function StreamOf(st: State, k: int): (s: seq<nat>)
    requires Inv(st)
    ensures |s| == BytesIn(st, k)
  {
    Open(st);
    if 0 <= k < |st.queues.qData| then Bytestream(st.queues, k) else []
  }

  /** Of queue j: it is now s if it is queue k, and else as it was. */
  ghost predicate Became(a: State, b: State, k: int, s: seq<nat>, j: int) {
    Inv(a) && Inv(b) && StreamOf(b, j) == if j == k then s else StreamOf(a, j)
  }

  lemma KeptStream(a: State, b: State, j: int)
    requires Inv(a) && Inv(b) && QueuesKept(a.queues, b.queues)
    ensures StreamOf(b, j) == StreamOf(a, j)
  {
    assert QueuesKeptParts(a.queues, b.queues, 0);
    if |a.queues.qData| <= j < |b.queues.qData| {
      assert View(b.queues, j) == [];
    }
  }

  lemma OtherStream(a: State, b: State, k: int, j: int)
    requires Inv(a) && Inv(b) && OthersKept(a.queues, b.queues, k) && j != k
    ensures StreamOf(b, j) == StreamOf(a, j)
  {
    if 0 <= j < |a.queues.qData| {
      assert View(b.queues, j) == View(a.queues, j);
    }
  }

  lemma AddRecStream(st: State, r: Rec, j: int)
    requires Inv(st) && r.dump && (r.op == OP_LINK ==> 1 <= r.stq <= |st.names.smMap|)
    ensures StreamOf(AddRec(st, r), j) == StreamOf(st, j)
    ensures |AddRec(st, r).queues.qData| == |st.queues.qData| && BytesIn(AddRec(st, r), j) == BytesIn(st, j)
  {
    KeptStream(st, AddRec(st, r), j);
  }

  /** Other queues in place of those there are. */
  lemma QueuesReplaced(st: State, qs: Queues)
    requires Inv(st) && QueuesOk(qs) && |qs.qData| == |st.queues.qData| && |qs.left| == |st.queues.left|
    ensures Inv(st.(queues := qs)) && Keeps(st, st.(queues := qs))
  {
    Open(st);
  }

  lemma NewRecordFree(st: State, st1: State, count: nat)
    requires Inv(st) && Inv(st1) && st1.queues == WithRecord(st.queues, count)
    ensures QueuesOk(st1.queues) && Free(st1.queues, |st.trace.pool|) && st1.queues.left[|st.trace.pool|] == count
    ensures |st1.queues.qData| == |st.names.qMap|
  {
    Open(st);
    Open(st1);
    NewestIsFree(st.queues, count);
  }

  /** Queue k takes in a record that is in no queue yet. */
  function WithEnqueued(st: State, k: nat, x: nat, front: bool): (r: State)
    requires Inv(st) && k < |st.queues.qData| && QueuesOk(st.queues) && Free(st.queues, x) && st.queues.left[x] >= 0
    ensures Inv(r) && Keeps(st, r) && r == st.(queues := Enqueued(st.queues, k, x, front))
  {
    var qs := Enqueued(st.queues, k, x, front);
    EnqueuedOk(st.queues, k, x, front);
    QueuesReplaced(st, qs);
    st.(queues := qs)
  }

  /** Bytes put at the back of others, or at the front. */
  function Joined(s: seq<nat>, b: seq<nat>, front: bool): seq<nat> {
    if front then b + s else s + b
  }

  lemma EnqueuedStream(st: State, k: nat, x: nat, front: bool, j: int)
    requires Inv(st) && k < |st.queues.qData| && QueuesOk(st.queues) && Free(st.queues, x) && st.queues.left[x] >= 0
    ensures var s, b := StreamOf(st, k), Bytes(Item(x, st.queues.left[x]));
            Became(st, WithEnqueued(st, k, x, front), k, Joined(s, b, front), j)
  {
    if j == k {
      BytesAdded(st.queues, k, x, front);
    } else {
      EnqueuedOk(st.queues, k, x, front);
      OtherStream(st, WithEnqueued(st, k, x, front), k, j);
    }
  }

  /** A new record, which goes into queue k. */
  function TakenIn(st: State, r: Rec, k: nat, front: bool): (st': State)
    requires Inv(st) && r.dump && r.op != OP_LINK && r.count >= 0 && k < |st.names.qMap|
    ensures Inv(st') && Keeps(st, st') && st' == st.(queues := st'.queues, trace := Added(st.trace, r))
  {
    var st1 := AddRec(st, r);
    NewRecordFree(st, st1, r.count);
    var st' := WithEnqueued(st1, k, |st.trace.pool|, front);
    KeepsTransitive(st, st1, st');
    st'
  }

  lemma TakenInStream(st: State, r: Rec, k: nat, front: bool, j: int)
    requires Inv(st) && r.dump && r.op != OP_LINK && r.count >= 0 && k < |st.names.qMap|
    ensures var s, b := StreamOf(st, k), Bytes(Item(|st.trace.pool|, r.count));
            Became(st, TakenIn(st, r, k, front), k, Joined(s, b, front), j)
  {
    var st1 := AddRec(st, r);
    AddRecStream(st, r, j);
    AddRecStream(st, r, k);
    NewRecordFree(st, st1, r.count);
    EnqueuedStream(st1, k, |st.trace.pool|, front, j);
  }

  predicate AtFront(flags: bv8) {
    flags & FL_QOPP != 0
  }

  function DoQ(st: State, now: nat, flags: bv8, cpu: int, sm: int, qi: int, count: nat): (r: State)
    requires Inv(st) && 1 <= qi <= |st.names.qMap|
    ensures Inv(r) && Keeps(st, r) && r == st.(queues := r.queues, trace := r.trace)
    ensures r.trace == Added(st.trace, Made(now, OP_QUEUE, flags, cpu, sm, qi, count))
  {
    TakenIn(st, Made(now, OP_QUEUE, flags, cpu, sm, qi, count), qi - 1, AtFront(flags))
  }

  /** Bytes are queued at the back of one queue, or at its front, under the new record. */
  lemma DoQStream(st: State, now: nat, flags: bv8, cpu: int, sm: int, qi: int, count: nat, j: int)
    requires Inv(st) && 1 <= qi <= |st.names.qMap|
    ensures var s, b := StreamOf(st, qi - 1), Bytes(Item(|st.trace.pool|, count));
            Became(st, DoQ(st, now, flags, cpu, sm, qi, count), qi - 1, Joined(s, b, AtFront(flags)), j)
  {
    var r, front := Made(now, OP_QUEUE, flags, cpu, sm, qi, count), AtFront(flags);
    assert DoQ(st, now, flags, cpu, sm, qi, count) == TakenIn(st, r, qi - 1, front);
    TakenInStream(st, r, qi - 1, front, j);
  }

  /** Queue k emptied. */
  function WithEmptied(st: State, k: nat): (r: State)
    requires Inv(st) && k < |st.queues.qData|
    ensures Inv(r) && Keeps(st, r) && r == st.(queues := r.queues) && BytesIn(r, k) == 0
  {
    Open(st);
    QueuesReplaced(st, Emptied(st.queues, k));
    st.(queues := Emptied(st.queues, k))
  }

  lemma EmptiedStream(st: State, k: nat, j: int)
    requires Inv(st) && k < |st.queues.qData|
    ensures Became(st, WithEmptied(st, k), k, [], j)
  {
    Open(st);
    var r := WithEmptied(st, k);
    if j == k {
      assert View(r.queues, k) == [];
    } else {
      OtherStream(st, r, k, j);
    }
  }

  /** Queue k without its first n bytes. */
  function WithDequeued(st: State, k: nat, n: nat): (r: State)
    requires Inv(st) && k < |st.queues.qData| && n <= BytesIn(st, k)
    ensures Inv(r) && Keeps(st, r) && r == st.(queues := r.queues) && |r.queues.qData| == |st.queues.qData|
  {
    Open(st);
    QueuesReplaced(st, Dequeued(st.queues, k, n));
    st.(queues := Dequeued(st.queues, k, n))
  }

  lemma DequeuedStream(st: State, k: nat, n: nat, j: int)
    requires Inv(st) && k < |st.queues.qData| && n <= BytesIn(st, k)
    ensures |StreamOf(st, k)| == BytesIn(st, k) && Became(st, WithDequeued(st, k, n), k, StreamOf(st, k)[n..], j)
  {
    Open(st);
    if j == k {
      BytesTaken(st.queues, k, n);
    } else {
      OtherStream(st, WithDequeued(st, k, n), k, j);
    }
  }

  /** Queue k without its last n bytes. */
  function WithCut(st: State, k: nat, n: nat): (r: State)
    requires Inv(st) && k < |st.queues.qData| && n <= BytesIn(st, k)
    ensures Inv(r) && Keeps(st, r) && r == st.(queues := r.queues)
  {
    Open(st);
    QueuesReplaced(st, Cut(st.queues, k, n));
    st.(queues := Cut(st.queues, k, n))
  }

  lemma CutStream(st: State, k: nat, n: nat, j: int)
    requires Inv(st) && k < |st.queues.qData| && n <= BytesIn(st, k)
    ensures |StreamOf(st, k)| == BytesIn(st, k)
    ensures Became(st, WithCut(st, k, n), k, StreamOf(st, k)[..BytesIn(st, k) - n], j)
  {
    Open(st);
    if j == k {
      BytesTaken(st.queues, k, n);
    } else {
      OtherStream(st, WithCut(st, k, n), k, j);
    }
  }

  /** Dequeues bytes, or everything for -1. Other counts fail an assertion; too few bytes are fatal. */
  function DoDq(st: State, now: nat, flags: bv8, cpu: int, sm: int, qi: int, count: int): (o: Outcome)
    requires Inv(st) && 1 <= qi <= |st.names.qMap|
    ensures o.Fine? <==> count == -1 || 0 < count <= |StreamOf(st, qi - 1)|
    ensures o.Fine? ==> Inv(o.st) && Keeps(st, o.st) && o.st == st.(queues := o.st.queues, trace := o.st.trace)
    ensures o.Fine? ==> o.st.trace == Added(st.trace, Made(now, OP_DEQUEUE, flags, cpu, sm, qi, count))
    ensures o.Stopped? ==> o.trace == if count <= 0 then st.trace else Dumped(st.trace, true)
    ensures o.Stopped? ==> TraceOk(o.trace) && Follows(st.trace, o.trace)
  {
    Open(st);
    var k, r := qi - 1, Made(now, OP_DEQUEUE, flags, cpu, sm, qi, count);
    if count == -1 then
      Fine(WithEmptied(AddRec(st, r), k))
    else if count <= 0 then Stopped(st.trace)
    else if st.queues.qBytes[k] < count then
      DumpedOk(st.trace, true);
      Stopped(Dumped(st.trace, true))
    else Fine(AddRec(WithDequeued(st, k, count), r))
  }

  /** A dequeue takes the first bytes of the stream, and nothing from other queues. */
  lemma DoDqStream(st: State, now: nat, flags: bv8, cpu: int, sm: int, qi: int, count: int, j: int)
    requires Inv(st) && 1 <= qi <= |st.names.qMap| && DoDq(st, now, flags, cpu, sm, qi, count).Fine?
    ensures Became(st, DoDq(st, now, flags, cpu, sm, qi, count).st, qi - 1,
                   if count == -1 then [] else StreamOf(st, qi - 1)[count..], j)
  {
    Open(st);
    var k, r := qi - 1, Made(now, OP_DEQUEUE, flags, cpu, sm, qi, count);
    if count == -1 {
      AddRecStream(st, r, j);
      EmptiedStream(AddRec(st, r), k, j);
    } else {
      DequeuedStream(st, k, count, j);
      AddRecStream(WithDequeued(st, k, count), r, j);
    }
  }

  /** A queue emptied before it is resized. */
  function Emptying(st: State, now: nat, cpu: int, sm: int, qi: int): (r: State)
    requires Inv(st) && 1 <= qi <= |st.names.qMap|
    ensures Inv(r) && Keeps(st, r) && r == st.(queues := r.queues, trace := r.trace)
    ensures r.trace == Added(st.trace, Made(now, OP_SIZE_QUEUE, FL_NONE, cpu, sm, qi, 0)) && BytesIn(r, qi - 1) == 0
  {
    Open(st);
    WithEmptied(AddRec(st, Made(now, OP_SIZE_QUEUE, FL_NONE, cpu, sm, qi, 0)), qi - 1)
  }

  /** Queue k without the bytes beyond a size. */
  function CutTo(st: State, k: nat, size: int): (r: State)
    requires Inv(st) && k < |st.queues.qData| && BytesIn(st, k) > size
    ensures Inv(r) && Keeps(st, r) && r == st.(queues := r.queues)
  {
    if size <= 0 then WithEmptied(st, k) else WithCut(st, k, BytesIn(st, k) - size)
  }

  lemma CutToStream(st: State, k: nat, size: int, j: int)
    requires Inv(st) && k < |st.queues.qData| && BytesIn(st, k) > size
    ensures |StreamOf(st, k)| == BytesIn(st, k)
    ensures Became(st, CutTo(st, k, size), k, if size <= 0 then [] else StreamOf(st, k)[..size], j)
  {
    if size <= 0 {
      EmptiedStream(st, k, j);
    } else {
      CutStream(st, k, BytesIn(st, k) - size, j);
    }
  }

  /** Cuts a queue that is too long at the back. */
  function CutDown(st: State, now: nat, cpu: int, sm: int, qi: int, size: int): (r: State)
    requires Inv(st) && 1 <= qi <= |st.names.qMap| && BytesIn(st, qi - 1) > size
    ensures Inv(r) && Keeps(st, r) && r == st.(queues := r.queues, trace := r.trace)
    ensures r.trace == Added(st.trace, Made(now, OP_SIZE_QUEUE, FL_NONE, cpu, sm, qi, size))
  {
    Open(st);
    CutTo(AddRec(st, Made(now, OP_SIZE_QUEUE, FL_NONE, cpu, sm, qi, size)), qi - 1, size)
  }

  lemma CutDownStream(st: State, now: nat, cpu: int, sm: int, qi: int, size: int, j: int)
    requires Inv(st) && 1 <= qi <= |st.names.qMap| && BytesIn(st, qi - 1) > size
    ensures |StreamOf(st, qi - 1)| == BytesIn(st, qi - 1)
    ensures Became(st, CutDown(st, now, cpu, sm, qi, size), qi - 1, if size <= 0 then []
            else StreamOf(st, qi - 1)[..size], j)
  {
    Open(st);
    var r := Made(now, OP_SIZE_QUEUE, FL_NONE, cpu, sm, qi, size);
    AddRecStream(st, r, j);
    AddRecStream(st, r, qi - 1);
    CutToStream(AddRec(st, r), qi - 1, size, j);
  }

  /** The records that bringing a queue of so many bytes to a size leaves. */
  function SizeRecs(now: nat, cpu: int, sm: int, qi: int, size: int, bytes: int): seq<Rec> {
    if bytes < size then [Made(now, OP_QUEUE, FL_NONE, cpu, sm, qi, size - bytes)]
    else if bytes > size then [Made(now, OP_SIZE_QUEUE, FL_NONE, cpu, sm, qi, size)]
    else []
  }

  function Settled(st: State, now: nat, cpu: int, sm: int, qi: int, size: int): (r: State)
    requires Inv(st) && 1 <= qi <= |st.names.qMap|
    ensures Inv(r) && Keeps(st, r) && r == st.(queues := r.queues, trace := r.trace)
    ensures r.trace.pool == st.trace.pool + SizeRecs(now, cpu, sm, qi, size, BytesIn(st, qi - 1))
  {
    BytesNat(st, qi - 1);
    if BytesIn(st, qi - 1) < size then DoQ(st, now, FL_NONE, cpu, sm, qi, size - BytesIn(st, qi - 1))
    else if BytesIn(st, qi - 1) > size then CutDown(st, now, cpu, sm, qi, size)
    else st
  }

  /** Sets the size of a queue, after emptying it if asked to. */
  function SetSize(st: State, now: nat, cpu: int, sm: int, qi: int, size: int, flags: bv8): (r: State)
    requires Inv(st) && 1 <= qi <= |st.names.qMap|
    ensures Inv(r) && Keeps(st, r) && r == st.(queues := r.queues, trace := r.trace)
    ensures r.trace.pool == st.trace.pool +
      if flags & FL_RESET != 0 then
        [Made(now, OP_SIZE_QUEUE, FL_NONE, cpu, sm, qi, 0)] + SizeRecs(now, cpu, sm, qi, size, 0)
      else SizeRecs(now, cpu, sm, qi, size, BytesIn(st, qi - 1))
  {
    Open(st);
    if flags & FL_RESET != 0 then
      var st1 := Emptying(st, now, cpu, sm, qi);
      KeepsTransitive(st, st1, Settled(st1, now, cpu, sm, qi, size));
      Settled(st1, now, cpu, sm, qi, size)
    else Settled(st, now, cpu, sm, qi, size)
  }

  /** A stream brought to a size: cut at the back, or grown there by bytes of record n. */
  ghost function Resized(s: seq<nat>, size: int, n: nat): seq<nat> {
    if |s| < size then s + Bytes(Item(n, size - |s|)) else if size <= 0 then [] else s[..size]
  }

  lemma ResizedGrown(s: seq<nat>, size: int, n: nat)
    requires |s| < size
    ensures Resized(s, size, n) == s + Bytes(Item(n, size - |s|))
  {
  }

  lemma BytesNat(st: State, k: int)
    requires Inv(st)
    ensures BytesIn(st, k) == |StreamOf(st, k)|
  {
  }

  lemma SettledGrown(st: State, now: nat, cpu: int, sm: int, qi: int, size: int, j: int)
    requires Inv(st) && 1 <= qi <= |st.names.qMap| && BytesIn(st, qi - 1) < size
    ensures Became(st, Settled(st, now, cpu, sm, qi, size), qi - 1,
            Resized(StreamOf(st, qi - 1), size, |st.trace.pool|), j)
  {
    BytesNat(st, qi - 1);
    var more := size - BytesIn(st, qi - 1);
    assert Settled(st, now, cpu, sm, qi, size) == DoQ(st, now, FL_NONE, cpu, sm, qi, more);
    ResizedGrown(StreamOf(st, qi - 1), size, |st.trace.pool|);
    DoQStream(st, now, FL_NONE, cpu, sm, qi, more, j);
  }

  lemma SettledCut(st: State, now: nat, cpu: int, sm: int, qi: int, size: int, j: int)
    requires Inv(st) && 1 <= qi <= |st.names.qMap| && BytesIn(st, qi - 1) > size
    ensures Became(st, Settled(st, now, cpu, sm, qi, size), qi - 1,
            Resized(StreamOf(st, qi - 1), size, |st.trace.pool|), j)
  {
    CutDownStream(st, now, cpu, sm, qi, size, j);
  }

  lemma SettledStream(st: State, now: nat, cpu: int, sm: int, qi: int, size: int, j: int)
    requires Inv(st) && 1 <= qi <= |st.names.qMap|
    ensures Became(st, Settled(st, now, cpu, sm, qi, size), qi - 1,
            Resized(StreamOf(st, qi - 1), size, |st.trace.pool|), j)
  {
    BytesNat(st, qi - 1);
    if BytesIn(st, qi - 1) < size {
      SettledGrown(st, now, cpu, sm, qi, size, j);
    } else if BytesIn(st, qi - 1) > size {
      SettledCut(st, now, cpu, sm, qi, size, j);
    } else {
      assert StreamOf(st, qi - 1)[..size] == StreamOf(st, qi - 1);
    }
  }

  lemma EmptyingStream(st: State, now: nat, cpu: int, sm: int, qi: int, j: int)
    requires Inv(st) && 1 <= qi <= |st.names.qMap|
    ensures Became(st, Emptying(st, now, cpu, sm, qi), qi - 1, [], j)
  {
    Open(st);
    var r := Made(now, OP_SIZE_QUEUE, FL_NONE, cpu, sm, qi, 0);
    AddRecStream(st, r, j);
    EmptiedStream(AddRec(st, r), qi - 1, j);
  }

  /** Setting a size changes one queue, at the back only, or after emptying it. */
  lemma SetSizeStream(st: State, now: nat, cpu: int, sm: int, qi: int, size: int, flags: bv8, j: int)
    requires Inv(st) && 1 <= qi <= |st.names.qMap|
    ensures Became(st, SetSize(st, now, cpu, sm, qi, size, flags), qi - 1,
                   if flags & FL_RESET != 0 then Resized([], size, |st.trace.pool| + 1)
                   else Resized(StreamOf(st, qi - 1), size, |st.trace.pool|), j)
  {
    if flags & FL_RESET != 0 {
      EmptyingStream(st, now, cpu, sm, qi, j);
      EmptyingStream(st, now, cpu, sm, qi, qi - 1);
      SettledStream(Emptying(st, now, cpu, sm, qi), now, cpu, sm, qi, size, j);
    } else {
      SettledStream(st, now, cpu, sm, qi, size, j);
    }
  }

  // ----- state machines

  function Stack(st: State, sid: StackId): seq<int> {
    if sid in st.machines.smStack then st.machines.smStack[sid] else []
  }

  function Top(st: State, sid: StackId): int
    requires Stack(st, sid) != []
  {
    Stack(st, sid)[|Stack(st, sid)| - 1]
  }

  /** What stands on a stack are machines of its system. */
  lemma TopIsMachine(st: State, sid: StackId)
    requires Inv(st) && Stack(st, sid) != []
    ensures 1 <= Top(st, sid) <= |st.names.smMap| && st.names.smMap[Top(st, sid) - 1].0 == sid.sys
  {
    Open(st);
    assert Top(st, sid) in st.machines.smStack[sid];
  }

  /** Whether beginning a machine links it to the one running in the same context. */
  predicate LinksBack(st: State, sid: StackId, flags: bv8) {
    flags & FL_LINK != 0 && Stack(st, sid) != []
  }

  /** Whether a system call has announced the machine. */
  predicate Waiting(st: State, sid: StackId, sm: string) {
    0 < sid.sys <= |st.links.scLinks| && Id(sm, sid.frame) in st.links.scLinks[sid.sys - 1]
  }

  /** The announced link for a machine. */
  function WaitingLink(st: State, sid: StackId, sm: string): nat
    requires Waiting(st, sid, sm)
  {
    st.links.scLinks[sid.sys - 1][Id(sm, sid.frame)]
  }

  ghost predicate IsMachine(st: State, smi: int, sys: int, name: string) {
    1 <= smi <= |st.names.smMap| && st.names.smMap[smi - 1].0 == sys && st.names.smMap[smi - 1].1.name == name
  }

  /** Links a machine that begins to the one running before it. */
  function LinkFrom(st: State, now: nat, cpu: int, prev: int, smi: int): (r: State)
    requires Inv(st) && 1 <= prev <= |st.names.smMap| && 1 <= smi <= |st.names.smMap|
    ensures Inv(r) && Keeps(st, r) && QueuesKept(st.queues, r.queues)
    ensures r.trace == Added(st.trace, Made(now, OP_LINK, FL_NONE, cpu, prev, smi, 0)) && r.links == st.links
    ensures r.names == st.names && r.states == st.states
    ensures r.machines == st.machines.(lnMap := st.machines.lnMap[smi := prev])
  {
    Open(st);
    AddRec(st.(machines := st.machines.(lnMap := st.machines.lnMap[smi := prev])),
           Made(now, OP_LINK, FL_NONE, cpu, prev, smi, 0))
  }

  function Stacked(st: State, sid: StackId, smi: int): (r: State)
    requires Inv(st) && 1 <= smi <= |st.names.smMap| && st.names.smMap[smi - 1].0 == sid.sys
    ensures Inv(r) && Keeps(st, r)
    ensures r == st.(machines := st.machines.(smStack := st.machines.smStack[sid := Stack(st, sid) + [smi]]))
  {
    Open(st);
    st.(machines := st.machines.(smStack := st.machines.smStack[sid := Stack(st, sid) + [smi]]))
  }

  /** The link table with one entry erased. */
  function Erased(l: Links, s: nat, id: Id): Links
    requires s < |l.scLinks|
  {
    l.(scLinks := l.scLinks[s := l.scLinks[s] - {id}])
  }

  /** A record whose target is now known. */
  function Patched(pool: seq<Rec>, i: nat, smi: int): seq<Rec>
    requires i < |pool|
  {
    pool[i := pool[i].(stq := smi, dump := true)]
  }

  lemma ReleaseLinks(smMap: seq<(int, Id)>, l: Links, pool: seq<Rec>, s: nat, id: Id, smi: int)
    requires LinksOk(smMap, l, pool) && s < |l.scLinks| && id in l.scLinks[s] && TargetOk(smMap, smi, (s, id))
    ensures l.scLinks[s][id] < |pool| && LinksOk(smMap, Erased(l, s, id), Patched(pool, l.scLinks[s][id], smi))
  {
    assert FileOk(l, pool, s, id);
    var an := l.scLinks[s][id];
    assert RecOk(smMap, l, pool, an);
    var l', pool' := Erased(l, s, id), Patched(pool, an, smi);
    forall i
      ensures RecOk(smMap, l', pool', i)
    {
      assert RecOk(smMap, l, pool, i);
    }
    forall s', id'
      ensures FileOk(l', pool', s', id')
    {
      assert FileOk(l, pool, s', id');
    }
  }

  lemma ReleaseTrace(t: Trace, i: nat, smi: int)
    requires TraceOk(t) && i < |t.pool| && !t.pool[i].dump
    ensures TraceOk(t.(pool := Patched(t.pool, i, smi))) && Follows(t, t.(pool := Patched(t.pool, i, smi)))
  {
  }

  /** Takes a link out of the table and lets it be written, now that its target is known. */
  function Released(st: State, s: nat, id: Id, smi: int): (r: State)
    requires Inv(st) && s < |st.links.scLinks| && id in st.links.scLinks[s] && TargetOk(st.names.smMap, smi, (s, id))
    ensures Inv(r) && Keeps(st, r) && st.links.scLinks[s][id] < |st.trace.pool|
    ensures r == st.(links := Erased(st.links, s, id),
                     trace := st.trace.(pool := Patched(st.trace.pool, st.links.scLinks[s][id], smi)))
  {
    Open(st);
    ReleaseLinks(st.names.smMap, st.links, st.trace.pool, s, id, smi);
    assert FileOk(st.links, st.trace.pool, s, id);
    ReleaseTrace(st.trace, st.links.scLinks[s][id], smi);
    st.(links := Erased(st.links, s, id),
        trace := st.trace.(pool := Patched(st.trace.pool, st.links.scLinks[s][id], smi)))
  }

  /** Gives a machine that begins the link that waits for it, if there is one. */
  function Resolve(st: State, sid: StackId, sm: string, smi: int): (o: Outcome)
    requires Inv(st) && IsMachine(st, smi, sid.sys, sm) && 1 <= sid.sys <= |st.names.systems|
    ensures o.Fine? <==> (Waiting(st, sid, sm) ==> Map(st.machines.lnMap, smi) == 0)
    ensures o.Fine? ==> Inv(o.st) && Keeps(st, o.st) && o.st.queues == st.queues && !Waiting(o.st, sid, sm)
    ensures o.Fine? ==>
              && o.st.names == st.names && o.st.states == st.states
              && o.st.machines.smStack == st.machines.smStack
    ensures o.Stopped? ==> TraceOk(o.trace) && Follows(st.trace, o.trace)
    ensures o.Fine? && !Waiting(st, sid, sm) ==> o.st == st
    ensures o.Fine? && Waiting(st, sid, sm) ==>
      var i := WaitingLink(st, sid, sm);
      && i < |st.trace.pool| && o.st.links == Erased(st.links, sid.sys - 1, Id(sm, sid.frame))
      && o.st.trace == st.trace.(pool := Patched(st.trace.pool, i, smi))
      && o.st.machines == st.machines.(lnMap := st.machines.lnMap[smi := st.trace.pool[i].sm])
  {
    Open(st);
    if !Waiting(st, sid, sm) then Fine(st)
    else
      var i := WaitingLink(st, sid, sm);
      assert FileOk(st.links, st.trace.pool, sid.sys - 1, Id(sm, sid.frame));
      assert RecOk(st.names.smMap, st.links, st.trace.pool, i);
      var st1 := Released(st, sid.sys - 1, Id(sm, sid.frame), smi);
      Open(st1);
      if Map(st.machines.lnMap, smi) != 0 then Stopped(st1.trace)
      else Fine(st1.(machines := st1.machines.(lnMap := st1.machines.lnMap[smi := st.trace.pool[i].sm])))
  }

  /** A machine can be linked from one place only. */
  predicate CanStart(st: State, sid: StackId, sm: string, smi: int, flags: bv8) {
    && !(LinksBack(st, sid, flags) && Waiting(st, sid, sm))
    && (LinksBack(st, sid, flags) || Waiting(st, sid, sm) ==> Map(st.machines.lnMap, smi) == 0)
  }

  /** The links between machines once smi has started. */
  ghost function LinksAfter(st: State, sid: StackId, sm: string, smi: int, flags: bv8): map<int, int>
    requires Waiting(st, sid, sm) ==> WaitingLink(st, sid, sm) < |st.trace.pool|
  {
    if LinksBack(st, sid, flags) then st.machines.lnMap[smi := Top(st, sid)]
    else if Waiting(st, sid, sm) then st.machines.lnMap[smi := st.trace.pool[WaitingLink(st, sid, sm)].sm]
    else st.machines.lnMap
  }

  lemma WaitingIsHeld(st: State, sid: StackId, sm: string)
    requires Inv(st) && Waiting(st, sid, sm)
    ensures WaitingLink(st, sid, sm) < |st.trace.pool| && !st.trace.pool[WaitingLink(st, sid, sm)].dump
  {
    Open(st);
    assert FileOk(st.links, st.trace.pool, sid.sys - 1, Id(sm, sid.frame));
  }

  /**
   Starts machine smi in a context: it is linked to the machine below it when
   asked for, goes on top of the stack, and gets the link that waits for it.
   */
  function Start(st: State, now: nat, cpu: int, sid: StackId, sm: string, smi: int, flags: bv8): (o: Outcome)
    requires Inv(st) && IsMachine(st, smi, sid.sys, sm) && 1 <= sid.sys <= |st.names.systems|
    ensures o.Fine? ==> Inv(o.st) && Keeps(st, o.st) && QueuesKept(st.queues, o.st.queues)
    ensures o.Fine? ==> o.st.names == st.names && o.st.states == st.states
    ensures o.Stopped? ==> TraceOk(o.trace) && Follows(st.trace, o.trace)
  {
    Open(st);
    if LinksBack(st, sid, flags) then
      if Map(st.machines.lnMap, smi) != 0 then Stopped(st.trace)
      else
        TopIsMachine(st, sid);
        var st1 := LinkFrom(st, now, cpu, Top(st, sid), smi);
        var o := Resolve(Stacked(st1, sid, smi), sid, sm, smi);
        OutcomeKeeps(st, st1, o);
        o
    else
      QueuesKeptItself(st.queues);
      OutcomeKeeps(st, Stacked(st, sid, smi), Resolve(Stacked(st, sid, smi), sid, sm, smi));
      Resolve(Stacked(st, sid, smi), sid, sm, smi)
  }

  lemma OutcomeKeeps(st: State, st1: State, o: Outcome)
    requires Keeps(st, st1)
    ensures o.Fine? && Keeps(st1, o.st) ==> Keeps(st, o.st)
    ensures o.Stopped? && Follows(st1.trace, o.trace) ==> Follows(st.trace, o.trace)
  {
    if o.Fine? && Keeps(st1, o.st) {
      KeepsTransitive(st, st1, o.st);
    }
    if o.Stopped? && Follows(st1.trace, o.trace) {
      OpenGoes(st, st1);
      FollowsTransitive(st.trace, st1.trace, o.trace);
    }
  }

  /**
   Starting fails exactly when the machine would be linked twice; otherwise it
   stands on top of its stack, has its link, and no link waits for it.
   */
  lemma StartIs(st: State, now: nat, cpu: int, sid: StackId, sm: string, smi: int, flags: bv8)
    requires Inv(st) && IsMachine(st, smi, sid.sys, sm) && 1 <= sid.sys <= |st.names.systems|
    ensures var o := Start(st, now, cpu, sid, sm, smi, flags);
            && (o.Fine? <==> CanStart(st, sid, sm, smi, flags))
            && (Waiting(st, sid, sm) ==> WaitingLink(st, sid, sm) < |st.trace.pool|)
            && (o.Fine? ==>
                 && o.st.machines.smStack == st.machines.smStack[sid := Stack(st, sid) + [smi]]
                 && o.st.machines.lnMap == LinksAfter(st, sid, sm, smi, flags) && !Waiting(o.st, sid, sm))
  {
    if Waiting(st, sid, sm) {
      WaitingIsHeld(st, sid, sm);
    }
    if LinksBack(st, sid, flags) {
      TopIsMachine(st, sid);
    }
  }

  /** What starting adds to the trace, and the announced link it gives a target. */
  lemma StartRecords(st: State, now: nat, cpu: int, sid: StackId, sm: string, smi: int, flags: bv8)
    requires Inv(st) && IsMachine(st, smi, sid.sys, sm) && 1 <= sid.sys <= |st.names.systems|
    requires Start(st, now, cpu, sid, sm, smi, flags).Fine?
    ensures var t := Start(st, now, cpu, sid, sm, smi, flags).st.trace;
            if LinksBack(st, sid, flags) then
              t == Added(st.trace, Made(now, OP_LINK, FL_NONE, cpu, Top(st, sid), smi, 0))
            else if Waiting(st, sid, sm) then
              && WaitingLink(st, sid, sm) < |st.trace.pool|
              && t == st.trace.(pool := Patched(st.trace.pool, WaitingLink(st, sid, sm), smi))
            else t == st.trace
  {
    StartIs(st, now, cpu, sid, sm, smi, flags);
    if LinksBack(st, sid, flags) {
      TopIsMachine(st, sid);
    }
  }

  /** The state tables once a state has its number. */
  function WithState(st: State, sm: string, name: string): (r: State)
    requires Inv(st)
    ensures Inv(r) && Keeps(st, r) && r == st.(states := r.states) && StatesOk(st.states)
            && r.states == WithSt(st.states, sm, name)
    ensures StNo(r.states, sm, name) == NextSt(st.states, sm, name)
  {
    Open(st);
    NextStIs(st.states, sm, name);
    st.(states := WithSt(st.states, sm, name))
  }

  function WithLast(st: State, smi: int, sti: int): (r: State)
    requires Inv(st)
    ensures Inv(r) && Keeps(st, r)
    ensures r == st.(machines := st.machines.(lastState := st.machines.lastState[smi := sti]))
  {
    Open(st);
    st.(machines := st.machines.(lastState := st.machines.lastState[smi := sti]))
  }

  /** Records the state in which a machine begins. */
  function BeginState(st: State, now: nat, cpu: int, smi: int, sm: string, name: string): (r: State)
    requires Inv(st)
    ensures Inv(r) && Keeps(st, r) && QueuesKept(st.queues, r.queues) && r.links == st.links && r.names == st.names
    ensures r.machines == st.machines.(lastState := st.machines.lastState[smi := NextSt(st.states, sm, name)])
    ensures r.trace == Added(st.trace, Made(now, OP_BEGIN, FL_NONE, cpu, smi, NextSt(st.states, sm, name), 0))
  {
    var k := NextSt(st.states, sm, name);
    var st1 := WithLast(WithState(st, sm, name), smi, k);
    AddRec(st1, Made(now, OP_BEGIN, FL_NONE, cpu, smi, k, 0))
  }

  /** The records that beginning machine smi leaves. */
  function BeginRecs(st: State, now: nat, cpu: int, sid: StackId, smi: int, sm: string, flags: bv8,
                     name: string): seq<Rec>
  {
    (if LinksBack(st, sid, flags) then [Made(now, OP_LINK, FL_NONE, cpu, Top(st, sid), smi, 0)] else []) +
    (if name != "" then [Made(now, OP_BEGIN, FL_NONE, cpu, smi, NextSt(st.states, sm, name), 0)] else [])
  }

  /** The state once a machine and its system have their numbers; None when those have run out. */
  function Named(st: State, sys: int, id: Id): (r: Option<State>)
    requires Inv(st)
    ensures r.Some? ==>
              && Inv(r.value) && Keeps(st, r.value)
              && r.value == st.(names := r.value.names, links := r.value.links)
    ensures r.Some? ==> var sysi := SysNo(r.value, sys);
              && 1 <= sysi <= |r.value.names.systems|
              && r.value.names.systems[sysi - 1] == sys
    ensures r.Some? ==>
      var sysi := SysNo(r.value, sys);
      var smi := SmNo(r.value, sysi, id);
      1 <= smi <= |r.value.names.smMap| && r.value.names.smMap[smi - 1] == (sysi, id)
    ensures r.Some? ==> SameLinks(st.links, r.value.links)
  {
    Open(st);
    var st1 := GetSys(st, sys);
    var st2 := GetSm(st1, SysNo(st1, sys), id);
    if st2.None? then None
    else
      KeepsTransitive(st, st1, st2.value);
      st2
  }

  /** The same links; a new system has none. */
  ghost predicate SameLinks(a: Links, b: Links) {
    a.awaited == b.awaited && (b.scLinks == a.scLinks || b.scLinks == a.scLinks + [map[]])
  }

  /** Records the first state of a machine, if that is known. */
  function MaybeBegin(st: State, now: nat, cpu: int, smi: int, sm: string, name: string): (r: State)
    requires Inv(st)
    ensures Inv(r) && Keeps(st, r) && QueuesKept(st.queues, r.queues) && r.names == st.names && r.links == st.links
    ensures r.machines.smStack == st.machines.smStack && r.machines.lnMap == st.machines.lnMap
    ensures r.trace.pool == st.trace.pool +
      if name == "" then [] else [Made(now, OP_BEGIN, FL_NONE, cpu, smi, NextSt(st.states, sm, name), 0)]
  {
    Open(st);
    if name == "" then st else BeginState(st, now, cpu, smi, sm, name)
  }

  /** Starts a machine that has its number, and records its first state if that is known. */
  function Begun(st: State, now: nat, cpu: int, sid: StackId, sm: string, smi: int, flags: bv8,
                 name: string): (o: Outcome)
    requires Inv(st) && IsMachine(st, smi, sid.sys, sm) && 1 <= sid.sys <= |st.names.systems|
    ensures o.Fine? ==> Inv(o.st) && Keeps(st, o.st) && QueuesKept(st.queues, o.st.queues) && o.st.names == st.names
    ensures o.Stopped? ==> TraceOk(o.trace) && Follows(st.trace, o.trace)
  {
    var o := Start(st, now, cpu, sid, sm, smi, flags);
    if o.Stopped? then o
    else
      var r := MaybeBegin(o.st, now, cpu, smi, sm, name);
      KeepsTransitive(st, o.st, r);
      QueuesKeptTransitive(st.queues, o.st.queues, r.queues);
      Fine(r)
  }

  /** Begins a machine. */
  function SmBegin(st: State, now: nat, cpu: int, sys: int, frame: nat, sm: string, id: nat, flags: bv8,
                   name: string): (o: Outcome)
    requires Inv(st)
    ensures o.Fine? ==> Inv(o.st) && Keeps(st, o.st) && QueuesKept(st.queues, o.st.queues)
    ensures o.Stopped? ==> TraceOk(o.trace) && Follows(st.trace, o.trace)
  {
    Open(st);
    var n := Named(st, sys, Id(sm, id));
    if n.None? then Stopped(st.trace)
    else
      var sysi := SysNo(n.value, sys);
      var o := Begun(n.value, now, cpu, StackId(sysi, frame), sm, SmNo(n.value, sysi, Id(sm, id)), flags, name);
      OutcomeKeeps(st, n.value, o);
      o
  }

  /** The records of st, a link that waits for machine smi having got its number. */
  ghost function PoolBegun(st: State, sid: StackId, sm: string, smi: int): seq<Rec>
    requires Inv(st)
  {
    Open(st);
    if Waiting(st, sid, sm) then
      WaitingIsHeld(st, sid, sm);
      Patched(st.trace.pool, WaitingLink(st, sid, sm), smi)
    else st.trace.pool
  }

  lemma StartPool(st: State, now: nat, cpu: int, sid: StackId, sm: string, smi: int, flags: bv8)
    requires Inv(st) && IsMachine(st, smi, sid.sys, sm) && 1 <= sid.sys <= |st.names.systems|
    requires Start(st, now, cpu, sid, sm, smi, flags).Fine?
    ensures Start(st, now, cpu, sid, sm, smi, flags).st.trace.pool ==
            PoolBegun(st, sid, sm, smi) + BeginRecs(st, now, cpu, sid, smi, sm, flags, "")
  {
    StartRecords(st, now, cpu, sid, sm, smi, flags);
    StartIs(st, now, cpu, sid, sm, smi, flags);
  }

  lemma BegunRecords(st: State, now: nat, cpu: int, sid: StackId, sm: string, smi: int, flags: bv8, name: string)
    requires Inv(st) && IsMachine(st, smi, sid.sys, sm) && 1 <= sid.sys <= |st.names.systems|
    requires Begun(st, now, cpu, sid, sm, smi, flags, name).Fine?
    ensures Begun(st, now, cpu, sid, sm, smi, flags, name).st.trace.pool ==
            PoolBegun(st, sid, sm, smi) + BeginRecs(st, now, cpu, sid, smi, sm, flags, name)
  {
    StartPool(st, now, cpu, sid, sm, smi, flags);
  }

  /**
   Beginning a machine adds the records it should, and gives its number to the
   link that waits for it; no other record changes.
   */
  lemma SmBeginRecords(st: State, now: nat, cpu: int, sys: int, frame: nat, sm: string, id: nat, flags: bv8,
                       name: string)
    requires Inv(st) && SmBegin(st, now, cpu, sys, frame, sm, id, flags, name).Fine?
    ensures Named(st, sys, Id(sm, id)).Some?
    ensures var st1, r := Named(st, sys, Id(sm, id)).value, SmBegin(st, now, cpu, sys, frame, sm, id, flags, name).st;
            var smi, sid := SmNo(st1, SysNo(st1, sys), Id(sm, id)), StackId(SysNo(st1, sys), frame);
            && r.names == st1.names
            && r.trace.pool == PoolBegun(st1, sid, sm, smi) + BeginRecs(st1, now, cpu, sid, smi, sm, flags, name)
  {
    var st1 := Named(st, sys, Id(sm, id)).value;
    var sysi := SysNo(st1, sys);
    BegunRecords(st1, now, cpu, StackId(sysi, frame), sm, SmNo(st1, sysi, Id(sm, id)), flags, name);
  }

  function Popped(st: State, sid: StackId): (r: State)
    requires Inv(st) && Stack(st, sid) != []
    ensures Inv(r) && Keeps(st, r)
    ensures var rest := Stack(st, sid)[..|Stack(st, sid)| - 1];
            r == st.(machines := st.machines.(smStack := st.machines.smStack[sid := rest]))
  {
    Open(st);
    var rest := Stack(st, sid)[..|Stack(st, sid)| - 1];
    assert forall x | x in rest :: x in Stack(st, sid);
    st.(machines := st.machines.(smStack := st.machines.smStack[sid := rest]))
  }

  /** Links a machine that ends back to where it came from, if it came from somewhere. */
  function LinkedBack(st: State, now: nat, cpu: int, smi: int): (r: State)
    requires Inv(st)
    ensures Inv(r) && Keeps(st, r) && QueuesKept(st.queues, r.queues) && r.names == st.names && r.links == st.links
    ensures r.machines == if Map(st.machines.lnMap, smi) == 0 then st.machines
            else st.machines.(lnMap := st.machines.lnMap - {smi})
    ensures r.trace == if Map(st.machines.lnMap, smi) == 0 then st.trace
                       else Added(st.trace, Made(now, OP_LINK, FL_NONE, cpu, smi, st.machines.lnMap[smi], 0))
  {
    Open(st);
    if Map(st.machines.lnMap, smi) == 0 then st
    else AddRec(st.(machines := st.machines.(lnMap := st.machines.lnMap - {smi})),
                Made(now, OP_LINK, FL_NONE, cpu, smi, st.machines.lnMap[smi], 0))
  }

  /** The records that ending machine smi leaves. */
  function EndRecs(st: State, now: nat, cpu: int, sid: StackId, smi: int): seq<Rec> {
    (if Map(st.machines.lnMap, smi) == 0 then []
        else [Made(now, OP_LINK, FL_NONE, cpu, smi, st.machines.lnMap[smi], 0)]) +
    (if |Stack(st, sid)| <= 1 then [] else [Made(now, OP_BEGIN, FL_NONE, cpu, smi, Map(st.machines.lastState, smi), 0)])
  }

  /** Takes machine smi off its stack, links it back, and records a begin when other machines are left there. */
  function Unwound(st: State, now: nat, cpu: int, sid: StackId, smi: int): (r: State)
    requires Inv(st) && Stack(st, sid) != []
    ensures Inv(r) && Keeps(st, r) && QueuesKept(st.queues, r.queues) && r.names == st.names && r.links == st.links
    ensures r.machines.smStack == st.machines.smStack[sid := Stack(st, sid)[..|Stack(st, sid)| - 1]]
    ensures Map(r.machines.lnMap, smi) == 0 && r.trace.pool == st.trace.pool + EndRecs(st, now, cpu, sid, smi)
  {
    var st1 := LinkedBack(Popped(st, sid), now, cpu, smi);
    KeepsTransitive(st, Popped(st, sid), st1);
    if |Stack(st, sid)| == 1 then st1
    else
      var r := AddRec(st1, Made(now, OP_BEGIN, FL_NONE, cpu, smi, Map(st.machines.lastState, smi), 0));
      KeepsTransitive(st, st1, r);
      QueuesKeptTransitive(st.queues, st1.queues, r.queues);
      r
  }

  /** The records that ending a machine of a name leaves: none when another machine is on top. */
  function TopRecs(st: State, now: nat, cpu: int, sid: StackId, sm: string): seq<Rec> {
    if Stack(st, sid) == [] || !(1 <= Top(st, sid) <= |st.names.smMap|)
        || st.names.smMap[Top(st, sid) - 1].1.name != sm then []
    else EndRecs(st, now, cpu, sid, Top(st, sid))
  }

  /** Ends the machine on top of a stack, if it has the given name. */
  function EndTop(st: State, now: nat, cpu: int, sid: StackId, sm: string): (r: State)
    requires Inv(st) && Stack(st, sid) != []
    ensures Inv(r) && Keeps(st, r) && QueuesKept(st.queues, r.queues) && r.names == st.names && r.links == st.links
    ensures r.trace.pool == st.trace.pool + TopRecs(st, now, cpu, sid, sm)
  {
    Open(st);
    TopIsMachine(st, sid);
    if st.names.smMap[Top(st, sid) - 1].1.name != sm then st else Unwound(st, now, cpu, sid, Top(st, sid))
  }

  /** The number read back for the name and context of a machine on a stack is its own: the assertion holds. */
  lemma ReadBack(st: State, sid: StackId)
    requires Inv(st) && Stack(st, sid) != [] && 1 <= sid.sys <= |st.names.systems|
    ensures var smi := Top(st, sid);
            && 1 <= smi <= |st.names.smMap|
            && GetSm(st, sid.sys, st.names.smMap[smi - 1].1) == Some(st)
               && SmNo(st, sid.sys, st.names.smMap[smi - 1].1) == smi
  {
    Open(st);
    TopIsMachine(st, sid);
    var smi := Top(st, sid);
    InternedBothWays(st.names.smCache, st.names.smMap, sid.sys, st.names.smMap[smi - 1].1, smi);
  }

  /** The last record says that the machine on top of the stack runs. */
  predicate BeginsTop(st: State, sid: StackId)
    requires Stack(st, sid) != []
  {
    var pool := st.trace.pool;
    pool != [] && pool[|pool| - 1].op == OP_BEGIN && pool[|pool| - 1].sm == Top(st, sid)
  }

  /**
   The begin that is recorded when an end leaves machines on the stack names the
   machine that ended. It is the machine now on top exactly when that is the same.
   */
  lemma BeginAfterEnd(st: State, now: nat, cpu: int, sid: StackId)
    requires Inv(st) && Stack(st, sid) != []
    ensures var stack, r := Stack(st, sid), Unwound(st, now, cpu, sid, Top(st, sid));
            && (Stack(r, sid) == [] <==> |stack| == 1)
            && (|stack| > 1 ==> (BeginsTop(r, sid) <==> stack[|stack| - 2] == stack[|stack| - 1]))
  {
  }

  function SmEnd(st: State, now: nat, cpu: int, sys: int, sm: string, frame: nat): (o: Outcome)
    requires Inv(st)
    ensures o.Fine? ==> Inv(o.st) && Keeps(st, o.st) && QueuesKept(st.queues, o.st.queues)
    ensures o.Fine? <==> Stack(st, StackId(SysNo(GetSys(st, sys), sys), frame)) != []
    ensures o.Fine? ==>
      o.st.trace.pool == st.trace.pool + TopRecs(st, now, cpu, StackId(SysNo(GetSys(st, sys), sys), frame), sm)
    ensures o.Stopped? ==> o.trace == st.trace
  {
    Open(st);
    var st1 := GetSys(st, sys);
    var sid := StackId(SysNo(st1, sys), frame);
    if Stack(st1, sid) == [] then Stopped(st.trace)
    else
      var r := EndTop(st1, now, cpu, sid, sm);
      KeepsTransitive(st, st1, r);
      Fine(r)
  }

  // ----- announced links

  /** A link whose target is not known yet. */
  function HeldLink(now: nat, cpu: int, smi: int): Rec {
    Made(now, OP_LINK, FL_NONE, cpu, smi, UNKNOWN, 0).(dump := false)
  }

  /** The link table with record n filed under a machine. */
  function Entered(l: Links, s: nat, id: Id, n: nat): Links
    requires s < |l.scLinks|
  {
    var m: map<Id, nat> := l.scLinks[s][id := n];
    Links(l.scLinks[s := m], l.awaited[n := (s, id)])
  }

  lemma HoldLinks(smMap: seq<(int, Id)>, l: Links, pool: seq<Rec>, s: nat, id: Id, r: Rec)
    requires LinksOk(smMap, l, pool) && s < |l.scLinks| && id !in l.scLinks[s]
    requires !r.dump && r.op == OP_LINK && r.stq == UNKNOWN && 1 <= r.sm <= |smMap|
    ensures LinksOk(smMap, Entered(l, s, id, |pool|), pool + [r])
  {
    var l', pool' := Entered(l, s, id, |pool|), pool + [r];
    forall i
      ensures RecOk(smMap, l', pool', i)
    {
      assert RecOk(smMap, l, pool, i);
    }
    forall s', id'
      ensures FileOk(l', pool', s', id')
    {
      assert FileOk(l, pool, s', id');
    }
  }

  /** Adds a link that waits for a machine; it will not be written before that has begun. */
  function Hold(st: State, now: nat, cpu: int, smi: int, sid: StackId, lsm: string): (r: State)
    requires Inv(st) && 1 <= smi <= |st.names.smMap| && 1 <= sid.sys <= |st.names.systems| && !Waiting(st, sid, lsm)
    ensures Inv(r) && Keeps(st, r) && QueuesKept(st.queues, r.queues) && r.names == st.names
            && r.machines == st.machines
    ensures Waiting(r, sid, lsm) && WaitingLink(r, sid, lsm) == |st.trace.pool|
    ensures r.trace == st.trace.(pool := st.trace.pool + [HeldLink(now, cpu, smi)])
    ensures r.links.awaited == st.links.awaited[|st.trace.pool| := (sid.sys - 1, Id(lsm, sid.frame))]
  {
    Open(st);
    var s, id, n := sid.sys - 1, Id(lsm, sid.frame), |st.trace.pool|;
    HoldLinks(st.names.smMap, st.links, st.trace.pool, s, id, HeldLink(now, cpu, smi));
    WithRecordOk(st.queues, 0);
    st.(links := Entered(st.links, s, id, n),
        trace := st.trace.(pool := st.trace.pool + [HeldLink(now, cpu, smi)]), queues := WithRecord(st.queues, 0))
  }

  /** The records that announcing a machine leaves. */
  function AnnounceRecs(st: State, now: nat, cpu: int, sid: StackId, end: Option<string>): seq<Rec> {
    if Stack(st, sid) == [] then []
    else [HeldLink(now, cpu, Top(st, sid))] + if end.None? then [] else TopRecs(st, now, cpu, sid, end.value)
  }

  /** The machine running in a context announces another, and may end. */
  function AnnounceOn(st: State, now: nat, cpu: int, sid: StackId, lsm: string, end: Option<string>): (r: State)
    requires Inv(st) && 1 <= sid.sys <= |st.names.systems| && Stack(st, sid) != [] && !Waiting(st, sid, lsm)
    ensures Inv(r) && Keeps(st, r) && QueuesKept(st.queues, r.queues) && r.names == st.names && Waiting(r, sid, lsm)
  {
    TopIsMachine(st, sid);
    var st1 := Hold(st, now, cpu, Top(st, sid), sid, lsm);
    if end.None? then st1
    else
      var st2 := EndTop(st1, now, cpu, sid, end.value);
      KeepsTransitive(st, st1, st2);
      QueuesKeptTransitive(st.queues, st1.queues, st2.queues);
      st2
  }

  lemma AnnounceRecords(st: State, now: nat, cpu: int, sid: StackId, lsm: string, end: Option<string>)
    requires Inv(st) && 1 <= sid.sys <= |st.names.systems| && Stack(st, sid) != [] && !Waiting(st, sid, lsm)
    ensures AnnounceOn(st, now, cpu, sid, lsm, end).trace.pool == st.trace.pool + AnnounceRecs(st, now, cpu, sid, end)
  {
    TopIsMachine(st, sid);
    var st1 := Hold(st, now, cpu, Top(st, sid), sid, lsm);
    if end.Some? {
      assert TopRecs(st1, now, cpu, sid, end.value) == TopRecs(st, now, cpu, sid, end.value);
    }
  }

  /** The running machine announces another, and may end; ignored when no machine runs. */
  function SyscallLink(st: State, now: nat, cpu: int, sys: int, frame: nat, lsm: string,
                       end: Option<string>): (o: Outcome)
    requires Inv(st)
    ensures o.Fine? ==> Inv(o.st) && Keeps(st, o.st) && QueuesKept(st.queues, o.st.queues)
    ensures o.Fine? <==> (var sid := StackId(SysNo(GetSys(st, sys), sys), frame);
              Stack(st, sid) == [] || !Waiting(st, sid, lsm))
    ensures o.Stopped? ==> o.trace == st.trace
  {
    Open(st);
    var st1 := GetSys(st, sys);
    var sid := StackId(SysNo(st1, sys), frame);
    if Stack(st1, sid) == [] then Fine(st1)
    else if Waiting(st1, sid, lsm) then Stopped(st.trace)
    else
      var r := AnnounceOn(st1, now, cpu, sid, lsm, end);
      KeepsTransitive(st, st1, r);
      Fine(r)
  }

  // ----- calls on queues

  /** Where a queue call acts: nowhere without a running machine, else for a machine on a queue. */
  datatype Place = NoNumber | Nowhere(st: State) | On(st: State, smi: int, qi: int)

  /** What every queue call starts with. */
  function Locate(st: State, sys: int, frame: nat, id: Id): (p: Place)
    requires Inv(st)
    ensures !p.NoNumber? ==>
              && Inv(p.st) && Keeps(st, p.st) && QueuesKept(st.queues, p.st.queues)
              && p.st.trace == st.trace
    ensures !p.NoNumber? ==> p.st.machines == st.machines && p.st.links.awaited == st.links.awaited
    ensures p.On? ==> 1 <= p.qi <= |p.st.names.qMap| && p.st.names.qMap[p.qi - 1] == (SysNo(p.st, sys), id)
    ensures p.On? ==> var sid := StackId(SysNo(p.st, sys), frame); Stack(st, sid) != [] && p.smi == Top(st, sid)
    ensures p.Nowhere? ==> Stack(st, StackId(SysNo(p.st, sys), frame)) == []
  {
    Open(st);
    var st1 := GetSys(st, sys);
    var sid := StackId(SysNo(st1, sys), frame);
    if Stack(st1, sid) == [] then Nowhere(st1)
    else
      var st2 := GetQ(st1, sid.sys, id);
      if st2.None? then NoNumber
      else
        KeepsTransitive(st, st1, st2.value);
        On(st2.value, Top(st1, sid), QNo(st2.value, sid.sys, id))
  }

  /** A place that a call in state st may act on. */
  ghost predicate PlaceOk(st: State, p: Place) {
    && Inv(st) && (!p.NoNumber? ==> Inv(p.st) && Keeps(st, p.st) && p.st.trace == st.trace)
    && (p.On? ==> 1 <= p.qi <= |p.st.names.qMap|)
  }

  lemma LocatedPlace(st: State, sys: int, frame: nat, id: Id)
    requires Inv(st)
    ensures PlaceOk(st, Locate(st, sys, frame, id))
  {
  }

  function QOn(ghost st: State, t: Trace, p: Place, now: nat, cpu: int, count: nat): (o: Outcome)
    requires PlaceOk(st, p) && t == st.trace
    ensures o.Fine? ==> Inv(o.st) && Keeps(st, o.st)
    ensures o.Stopped? ==> o.trace == t
  {
    match p
    case NoNumber => Stopped(t)
    case Nowhere(st1) => Fine(st1)
    case On(st1, smi, qi) =>
      if count == 0 then Fine(st1)
      else
        var r := DoQ(st1, now, FL_NONE, cpu, smi, qi, count);
        KeepsTransitive(st, st1, r);
        Fine(r)
  }

  /** Queues bytes on behalf of the running machine; no bytes are ignored. */
  function SwQ(st: State, now: nat, cpu: int, sys: int, frame: nat, id: Id, count: nat): (o: Outcome)
    requires Inv(st)
    ensures o.Fine? ==> Inv(o.st) && Keeps(st, o.st)
    ensures o.Stopped? ==> o.trace == st.trace
  {
    QOn(st, st.trace, Locate(st, sys, frame, id), now, cpu, count)
  }

  function DqOn(ghost st: State, t: Trace, p: Place, now: nat, cpu: int, count: int): (o: Outcome)
    requires PlaceOk(st, p) && t == st.trace
    ensures o.Fine? ==> Inv(o.st) && Keeps(st, o.st)
    ensures o.Stopped? ==> TraceOk(o.trace) && Follows(t, o.trace)
  {
    Open(st);
    match p
    case NoNumber => Stopped(t)
    case Nowhere(st1) => Fine(st1)
    case On(st1, smi, qi) =>
      var o := DoDq(st1, now, FL_NONE, cpu, smi, qi, count);
      OutcomeKeeps(st, st1, o);
      o
  }

  /** Dequeues bytes on behalf of the running machine. */
  function SwDq(st: State, now: nat, cpu: int, sys: int, frame: nat, id: Id, count: int): (o: Outcome)
    requires Inv(st)
    ensures o.Fine? ==> Inv(o.st) && Keeps(st, o.st)
    ensures o.Stopped? ==> TraceOk(o.trace) && Follows(st.trace, o.trace)
  {
    DqOn(st, st.trace, Locate(st, sys, frame, id), now, cpu, count)
  }

  function SqOn(ghost st: State, t: Trace, p: Place, now: nat, cpu: int, size: int, flags: bv8): (o: Outcome)
    requires PlaceOk(st, p) && t == st.trace
    ensures o.Fine? ==> Inv(o.st) && Keeps(st, o.st)
    ensures o.Stopped? ==> o.trace == t
  {
    match p
    case NoNumber => Stopped(t)
    case Nowhere(st1) => Fine(st1)
    case On(st1, smi, qi) =>
      var r := SetSize(st1, now, cpu, smi, qi, size, flags);
      KeepsTransitive(st, st1, r);
      Fine(r)
  }

  /** Sets the size of a queue on behalf of the running machine. */
  function SwSq(st: State, now: nat, cpu: int, sys: int, frame: nat, id: Id, size: int, flags: bv8): (o: Outcome)
    requires Inv(st)
    ensures o.Fine? ==> Inv(o.st) && Keeps(st, o.st)
    ensures o.Stopped? ==> o.trace == st.trace
  {
    SqOn(st, st.trace, Locate(st, sys, frame, id), now, cpu, size, flags)
  }

  /** A change to one queue in a state whose queues are those of st. */
  lemma FromMid(st: State, mid: State, r: State, k: int, s: seq<nat>, j: int)
    requires Inv(st) && Inv(mid) && QueuesKept(st.queues, mid.queues) && Became(mid, r, k, s, j)
    ensures StreamOf(mid, j) == StreamOf(st, j) && StreamOf(r, j) == if j == k then s else StreamOf(st, j)
  {
    KeptStream(st, mid, j);
  }

  lemma QAt(st: State, mid: State, now: nat, cpu: int, sm: int, qi: int, count: nat, j: int)
    requires Inv(st) && Inv(mid) && QueuesKept(st.queues, mid.queues) && mid.trace == st.trace
             && 1 <= qi <= |mid.names.qMap|
    ensures StreamOf(DoQ(mid, now, FL_NONE, cpu, sm, qi, count), j) ==
            if j == qi - 1 then StreamOf(st, j) + Bytes(Item(|st.trace.pool|, count)) else StreamOf(st, j)
  {
    DoQStream(mid, now, FL_NONE, cpu, sm, qi, count, j);
    FromMid(st, mid, DoQ(mid, now, FL_NONE, cpu, sm, qi, count), qi - 1,
            StreamOf(mid, qi - 1) + Bytes(Item(|mid.trace.pool|, count)), j);
  }

  lemma DqAt(st: State, mid: State, now: nat, cpu: int, sm: int, qi: int, count: int, j: int)
    requires Inv(st) && Inv(mid) && QueuesKept(st.queues, mid.queues) && 1 <= qi <= |mid.names.qMap|
    requires DoDq(mid, now, FL_NONE, cpu, sm, qi, count).Fine?
    ensures var s := StreamOf(st, j);
            StreamOf(DoDq(mid, now, FL_NONE, cpu, sm, qi, count).st, j) ==
            if j != qi - 1 then s else if 0 < count <= |s| then s[count..] else []
  {
    KeptStream(st, mid, j);
    DoDqStream(mid, now, FL_NONE, cpu, sm, qi, count, j);
  }

  lemma SqResetAt(st: State, mid: State, now: nat, cpu: int, sm: int, qi: int, size: int, flags: bv8, j: int)
    requires Inv(st) && Inv(mid) && QueuesKept(st.queues, mid.queues) && 1 <= qi <= |mid.names.qMap|
             && flags & FL_RESET != 0
    ensures StreamOf(SetSize(mid, now, cpu, sm, qi, size, flags), j) ==
            if j != qi - 1 then StreamOf(st, j) else Resized([], size, |mid.trace.pool| + 1)
  {
    KeptStream(st, mid, j);
    SetSizeStream(mid, now, cpu, sm, qi, size, flags, j);
  }

  lemma SqPlainAt(st: State, mid: State, now: nat, cpu: int, sm: int, qi: int, size: int, flags: bv8, j: int)
    requires Inv(st) && Inv(mid) && QueuesKept(st.queues, mid.queues) && 1 <= qi <= |mid.names.qMap|
             && flags & FL_RESET == 0
    ensures StreamOf(SetSize(mid, now, cpu, sm, qi, size, flags), j) ==
            if j != qi - 1 then StreamOf(st, j) else Resized(StreamOf(st, j), size, |mid.trace.pool|)
  {
    KeptStream(st, mid, j);
    SetSizeStream(mid, now, cpu, sm, qi, size, flags, j);
  }

  /** Queue j after bytes are queued: they go to the back of one queue, under the new record. */
  ghost function AfterQ(st: State, sys: int, frame: nat, id: Id, count: nat, j: int): seq<nat>
    requires Inv(st)
  {
    var p := Locate(st, sys, frame, id);
    if p.On? && j == p.qi - 1 && count > 0 then StreamOf(st, j) + Bytes(Item(|st.trace.pool|, count))
        else StreamOf(st, j)
  }

  lemma SwQStream(st: State, now: nat, cpu: int, sys: int, frame: nat, id: Id, count: nat, j: int)
    requires Inv(st) && SwQ(st, now, cpu, sys, frame, id, count).Fine?
    ensures StreamOf(SwQ(st, now, cpu, sys, frame, id, count).st, j) == AfterQ(st, sys, frame, id, count, j)
  {
    var p := Locate(st, sys, frame, id);
    if p.On? && count > 0 {
      QAt(st, p.st, now, cpu, p.smi, p.qi, count, j);
    } else {
      KeptStream(st, p.st, j);
    }
  }

  /** Queue j after a dequeue: the first bytes of one queue, or all of them, are gone. */
  ghost function AfterDq(st: State, sys: int, frame: nat, id: Id, count: int, j: int): seq<nat>
    requires Inv(st)
  {
    var p, s := Locate(st, sys, frame, id), StreamOf(st, j);
    if p.On? && j == p.qi - 1 then if 0 < count <= |s| then s[count..] else [] else s
  }

  lemma SwDqStream(st: State, now: nat, cpu: int, sys: int, frame: nat, id: Id, count: int, j: int)
    requires Inv(st) && SwDq(st, now, cpu, sys, frame, id, count).Fine?
    ensures StreamOf(SwDq(st, now, cpu, sys, frame, id, count).st, j) == AfterDq(st, sys, frame, id, count, j)
  {
    var p := Locate(st, sys, frame, id);
    if p.On? {
      DqAt(st, p.st, now, cpu, p.smi, p.qi, count, j);
    } else {
      KeptStream(st, p.st, j);
    }
  }

  /** Queue j after a resize: one queue is cut or grown at the back, after being emptied if that was asked for. */
  ghost function AfterSq(st: State, sys: int, frame: nat, id: Id, size: int, flags: bv8, j: int): seq<nat>
    requires Inv(st)
  {
    var p, s := Locate(st, sys, frame, id), StreamOf(st, j);
    if !p.On? || j != p.qi - 1 then s
    else if flags & FL_RESET != 0 then Resized([], size, |st.trace.pool| + 1)
    else Resized(s, size, |st.trace.pool|)
  }

  lemma SwSqStream(st: State, now: nat, cpu: int, sys: int, frame: nat, id: Id, size: int, flags: bv8, j: int)
    requires Inv(st) && SwSq(st, now, cpu, sys, frame, id, size, flags).Fine?
    ensures StreamOf(SwSq(st, now, cpu, sys, frame, id, size, flags).st, j)
            == AfterSq(st, sys, frame, id, size, flags, j)
  {
    var p := Locate(st, sys, frame, id);
    if p.On? {
      if flags & FL_RESET != 0 {
        SqResetAt(st, p.st, now, cpu, p.smi, p.qi, size, flags, j);
      } else {
        SqPlainAt(st, p.st, now, cpu, p.smi, p.qi, size, flags, j);
      }
    } else {
      KeptStream(st, p.st, j);
    }
  }
}
