/**
 The interning tables of base/cp_annotate.hh as values: systems, state machines,
 queues and states are numbered from 1 in the order they are first seen.
 */
module AnnotateNames {
  import opened Basics

  /** A name with the context, queue or frame number that goes with it. */
  datatype Id = Id(name: string, id: nat)

  /** Numbers given to machines and queues stay below this bound, which the source asserts. */
  const MAX_ID := 65535

  /** A lookup in the manner of the source's maps: what is absent reads as 0. */
  function Map<K>(m: map<K, int>, k: K): int {
    if k in m then m[k] else 0
  }

  // ----- caches of systems against one table

  /** A cache entry names the table row it was made for. */
  ghost predicate EntryOk(caches: seq<map<Id, int>>, table: seq<(int, Id)>, s: int, id: Id) {
    0 <= s < |caches| && id in caches[s] ==>
      1 <= caches[s][id] <= |table| && table[caches[s][id] - 1] == (s + 1, id)
  }

  /** A table row is found through the cache of its system. */
  ghost predicate RowOk(caches: seq<map<Id, int>>, table: seq<(int, Id)>, k: int) {
    0 <= k < |table| ==>
      && 1 <= table[k].0 <= |caches| && table[k].1 in caches[table[k].0 - 1]
      && caches[table[k].0 - 1][table[k].1] == k + 1
  }

  /** The caches, one for each system, and the table are inverse to each other; ids are dense from 1. */
  ghost predicate Interned(caches: seq<map<Id, int>>, table: seq<(int, Id)>) {
    && (forall s, id {:trigger EntryOk(caches, table, s, id)} :: EntryOk(caches, table, s, id))
    && (forall k {:trigger RowOk(caches, table, k)} :: RowOk(caches, table, k))
  }

  /** A cache entry k for (sys, id) means the k-th table row is (sys, id), and the other way round. */
  lemma InternedBothWays(caches: seq<map<Id, int>>, table: seq<(int, Id)>, sys: int, id: Id, k: int)
    requires Interned(caches, table) && 1 <= sys <= |caches|
    ensures id in caches[sys - 1] && caches[sys - 1][id] == k <==> 1 <= k <= |table| && table[k - 1] == (sys, id)
  {
    assert EntryOk(caches, table, sys - 1, id);
    assert RowOk(caches, table, k - 1);
  }

  /** The next id for a name not seen before. */
  lemma InternNew(caches: seq<map<Id, int>>, table: seq<(int, Id)>, sys: int, id: Id)
    requires Interned(caches, table) && 1 <= sys <= |caches| && id !in caches[sys - 1]
    ensures Interned(caches[sys - 1 := caches[sys - 1][id := |table| + 1]], table + [(sys, id)])
  {
    var cs, t := caches[sys - 1 := caches[sys - 1][id := |table| + 1]], table + [(sys, id)];
    forall s, i
      ensures EntryOk(cs, t, s, i)
    {
      assert EntryOk(caches, table, s, i);
    }
    forall k
      ensures RowOk(cs, t, k)
    {
      assert RowOk(caches, table, k);
    }
  }

  lemma InternNewSystem(caches: seq<map<Id, int>>, table: seq<(int, Id)>)
    requires Interned(caches, table)
    ensures Interned(caches + [map[]], table)
  {
    var cs := caches + [map[]];
    forall s, i
      ensures EntryOk(cs, table, s, i)
    {
      assert EntryOk(caches, table, s, i);
    }
    forall k
      ensures RowOk(cs, table, k)
    {
      assert RowOk(caches, table, k);
    }
  }

  // ----- plain numbering

  ghost predicate NumberOk<T>(numbers: map<T, int>, things: seq<T>, x: T) {
    x in numbers ==> 1 <= numbers[x] <= |things| && things[numbers[x] - 1] == x
  }

  ghost predicate ThingOk<T>(numbers: map<T, int>, things: seq<T>, k: int) {
    0 <= k < |things| ==> things[k] in numbers && numbers[things[k]] == k + 1
  }

  /** Things are numbered from 1 in the order they are first seen. */
  ghost predicate Numbered<T(!new)>(numbers: map<T, int>, things: seq<T>) {
    && (forall x {:trigger NumberOk(numbers, things, x)} :: NumberOk(numbers, things, x))
    && (forall k {:trigger ThingOk(numbers, things, k)} :: ThingOk(numbers, things, k))
  }

  lemma NumberNew<T(!new)>(numbers: map<T, int>, things: seq<T>, x: T)
    requires Numbered(numbers, things) && x !in numbers
    ensures Numbered(numbers[x := |things| + 1], things + [x])
  {
    var ns, ts := numbers[x := |things| + 1], things + [x];
    forall y
      ensures NumberOk(ns, ts, y)
    {
      assert NumberOk(numbers, things, y);
    }
    forall k
      ensures ThingOk(ns, ts, k)
    {
      assert ThingOk(numbers, things, k);
    }
  }

  lemma SeenIsNumbered<T(!new)>(numbers: map<T, int>, things: seq<T>, x: T)
    requires Numbered(numbers, things)
    ensures x in things <==> x in numbers
  {
    assert NumberOk(numbers, things, x);
    if x in things {
      var k :| 0 <= k < |things| && things[k] == x;
      assert ThingOk(numbers, things, k);
    }
  }

  // ----- systems, machines and queues

  datatype Names = Names(nameCache: map<int, int>, systems: seq<int>, smCache: seq<map<Id, int>>, smMap: seq<(int, Id)>,
                         numQ: seq<int>, qCache: seq<map<Id, int>>, qMap: seq<(int, Id)>)

  ghost predicate NamesOk(n: Names) {
    && |n.systems| == |n.smCache| == |n.qCache| == |n.numQ| && Numbered(n.nameCache, n.systems)
    && |n.smMap| < MAX_ID && Interned(n.smCache, n.smMap)
    && |n.qMap| < MAX_ID && Interned(n.qCache, n.qMap)
  }

  /** Names once given a number keep it. */
  ghost predicate NamesKept(a: Names, b: Names) {
    a.systems <= b.systems && a.smMap <= b.smMap && a.qMap <= b.qMap
  }

  /** The tables once a system has its number. */
  function WithSys(n: Names, sys: int): (r: Names)
    requires NamesOk(n)
    ensures NamesOk(r) && NamesKept(n, r) && r.smMap == n.smMap && r.qMap == n.qMap
    ensures sys in r.nameCache && 1 <= r.nameCache[sys] <= |r.systems| && r.systems[r.nameCache[sys] - 1] == sys
  {
    if sys in n.nameCache then
      assert NumberOk(n.nameCache, n.systems, sys);
      n
    else
      NumberNew(n.nameCache, n.systems, sys);
      InternNewSystem(n.smCache, n.smMap);
      InternNewSystem(n.qCache, n.qMap);
      n.(nameCache := n.nameCache[sys := |n.systems| + 1], systems := n.systems + [sys],
         smCache := n.smCache + [map[]], numQ := n.numQ + [0], qCache := n.qCache + [map[]])
  }

  /** The tables once a machine has its number; None when the numbers have run out. */
  function WithSm(n: Names, sysi: int, id: Id): (r: Option<Names>)
    requires NamesOk(n) && 1 <= sysi <= |n.systems|
    ensures r.None? <==> id !in n.smCache[sysi - 1] && |n.smMap| + 1 >= MAX_ID
    ensures r.Some? ==>
              && NamesOk(r.value) && NamesKept(n, r.value) && r.value.systems == n.systems
              && r.value.qMap == n.qMap
    ensures r.Some? ==> r.value.nameCache == n.nameCache && id in r.value.smCache[sysi - 1]
    ensures r.Some? ==> var k := r.value.smCache[sysi - 1][id];
              && 1 <= k <= |r.value.smMap|
              && r.value.smMap[k - 1] == (sysi, id)
    ensures r.Some? && (id in n.smCache[sysi - 1] || (sysi, id) in n.smMap) ==> r.value == n
  {
    if id in n.smCache[sysi - 1] then
      assert EntryOk(n.smCache, n.smMap, sysi - 1, id);
      Some(n)
    else if |n.smMap| + 1 >= MAX_ID then None
    else
      InternNew(n.smCache, n.smMap, sysi, id);
      assert forall k | 0 <= k < |n.smMap| && n.smMap[k] == (sysi, id) :: RowOk(n.smCache, n.smMap, k);
      Some(n.(smCache := n.smCache[sysi - 1 := n.smCache[sysi - 1][id := |n.smMap| + 1]],
          smMap := n.smMap + [(sysi, id)]))
  }

  /** The tables once a queue has its number; None when the numbers have run out. */
  function WithQ(n: Names, sysi: int, id: Id): (r: Option<Names>)
    requires NamesOk(n) && 1 <= sysi <= |n.systems|
    ensures r.None? <==> id !in n.qCache[sysi - 1] && |n.qMap| + 1 >= MAX_ID
    ensures r.Some? ==>
              && NamesOk(r.value) && NamesKept(n, r.value) && r.value.systems == n.systems
              && r.value.smMap == n.smMap
    ensures r.Some? ==> r.value.nameCache == n.nameCache && id in r.value.qCache[sysi - 1]
    ensures r.Some? ==> var k := r.value.qCache[sysi - 1][id];
              && 1 <= k <= |r.value.qMap|
              && r.value.qMap[k - 1] == (sysi, id)
    ensures r.Some? ==> |r.value.qMap| == |n.qMap| + if id in n.qCache[sysi - 1] then 0 else 1
  {
    if id in n.qCache[sysi - 1] then
      assert EntryOk(n.qCache, n.qMap, sysi - 1, id);
      Some(n)
    else if |n.qMap| + 1 >= MAX_ID then None
    else
      InternNew(n.qCache, n.qMap, sysi, id);
      Some(n.(qCache := n.qCache[sysi - 1 := n.qCache[sysi - 1][id := |n.qMap| + 1]], qMap := n.qMap + [(sysi, id)],
              numQ := n.numQ[sysi - 1 := n.numQ[sysi - 1] + 1]))
  }

  /** What is new gets the next number, and nothing else gets one. */
  lemma NumbersAreDense(n: Names, sys: int, sysi: int, id: Id)
    requires NamesOk(n) && 1 <= sysi <= |n.systems|
    ensures WithSys(n, sys).systems == if sys in n.systems then n.systems else n.systems + [sys]
    ensures WithSm(n, sysi, id).Some? ==>
              WithSm(n, sysi, id).value.smMap == if (sysi, id) in n.smMap then n.smMap else n.smMap + [(sysi, id)]
    ensures WithQ(n, sysi, id).Some? ==>
              WithQ(n, sysi, id).value.qMap == if (sysi, id) in n.qMap then n.qMap else n.qMap + [(sysi, id)]
  {
    SeenIsNumbered(n.nameCache, n.systems, sys);
    RowIsCached(n.smCache, n.smMap, sysi, id);
    RowIsCached(n.qCache, n.qMap, sysi, id);
  }

  lemma RowIsCached(caches: seq<map<Id, int>>, table: seq<(int, Id)>, sys: int, id: Id)
    requires Interned(caches, table) && 1 <= sys <= |caches|
    ensures (sys, id) in table <==> id in caches[sys - 1]
  {
    assert EntryOk(caches, table, sys - 1, id);
    if (sys, id) in table {
      var k :| 0 <= k < |table| && table[k] == (sys, id);
      assert RowOk(caches, table, k);
    }
  }

  // ----- states by machine name

  datatype States = States(smtCache: map<string, int>, smtNames: seq<string>,
                           stCache: seq<map<string, int>>, stNames: seq<seq<string>>)

  ghost predicate StateTableOk(s: States, i: int)
    requires |s.stCache| == |s.stNames|
  {
    0 <= i < |s.stCache| ==> Numbered(s.stCache[i], s.stNames[i])
  }

  ghost predicate StatesOk(s: States) {
    && Numbered(s.smtCache, s.smtNames) && |s.stCache| == |s.stNames| <= |s.smtNames|
    && forall i {:trigger StateTableOk(s, i)} :: StateTableOk(s, i)
  }

  /** States once given a number keep it. */
  ghost predicate StatesKept(a: States, b: States) {
    && a.smtNames <= b.smtNames && |a.stNames| <= |b.stNames|
    && forall i | 0 <= i < |a.stNames| :: a.stNames[i] <= b.stNames[i]
  }

  function WithSmt(s: States, sm: string): (r: States)
    requires StatesOk(s)
    ensures StatesOk(r) && StatesKept(s, r) && sm in r.smtCache && 1 <= r.smtCache[sm] <= |r.smtNames|
    ensures r.smtNames[r.smtCache[sm] - 1] == sm
  {
    if sm in s.smtCache then
      assert NumberOk(s.smtCache, s.smtNames, sm);
      s
    else
      NumberNew(s.smtCache, s.smtNames, sm);
      var r := s.(smtCache := s.smtCache[sm := |s.smtNames| + 1], smtNames := s.smtNames + [sm]);
      assert forall i :: StateTableOk(s, i) ==> StateTableOk(r, i);
      r
  }

  /** State tables for the first n machine names. */
  function Padded(s: States, n: nat): (r: States)
    requires StatesOk(s) && n <= |s.smtNames|
    ensures StatesOk(r) && StatesKept(s, r) && n <= |r.stNames| && r.smtCache == s.smtCache && r.smtNames == s.smtNames
    decreases n - |s.stCache|
  {
    if |s.stCache| >= n then s
    else
      var r := s.(stCache := s.stCache + [map[]], stNames := s.stNames + [[]]);
      assert forall i :: StateTableOk(s, i) ==> StateTableOk(r, i);
      Padded(r, n)
  }

  /** The number a state of a machine has or gets next. */
  function NextSt(s: States, sm: string, st: string): int {
    var k := Map(s.smtCache, sm);
    if !(1 <= k <= |s.stCache| && k <= |s.stNames|) then 1
    else if st in s.stCache[k - 1] then s.stCache[k - 1][st]
    else |s.stNames[k - 1]| + 1
  }

  /** State table k once a state has its number there. */
  function StateIn(s: States, k: nat, st: string): (r: States)
    requires StatesOk(s) && k < |s.stCache|
    ensures StatesOk(r) && StatesKept(s, r) && r.smtCache == s.smtCache && r.smtNames == s.smtNames
    ensures |r.stCache| == |s.stCache| && st in r.stCache[k]
    ensures 1 <= r.stCache[k][st] <= |r.stNames[k]| && r.stNames[k][r.stCache[k][st] - 1] == st
  {
    assert StateTableOk(s, k);
    if st in s.stCache[k] then
      assert NumberOk(s.stCache[k], s.stNames[k], st);
      s
    else
      NumberNew(s.stCache[k], s.stNames[k], st);
      var r := s.(stCache := s.stCache[k := s.stCache[k][st := |s.stNames[k]| + 1]],
                  stNames := s.stNames[k := s.stNames[k] + [st]]);
      assert forall i :: StateTableOk(s, i) ==> StateTableOk(r, i);
      r
  }

  /** The tables once a state of a machine has its number. */
  function WithSt(s: States, sm: string, st: string): (r: States)
    requires StatesOk(s)
    ensures StatesOk(r) && StatesKept(s, r) && sm in r.smtCache && 1 <= r.smtCache[sm] <= |r.stCache|
    ensures r.smtNames[r.smtCache[sm] - 1] == sm
    ensures var k := r.smtCache[sm] - 1;
            && st in r.stCache[k] && 1 <= r.stCache[k][st] <= |r.stNames[k]| && r.stNames[k][r.stCache[k][st] - 1] == st
  {
    var s1 := WithSmt(s, sm);
    StateIn(Padded(s1, s1.smtCache[sm]), s1.smtCache[sm] - 1, st)
  }

  /** The number of a state, 0 when it has none. */
  function StNo(s: States, sm: string, st: string): int {
    var k := Map(s.smtCache, sm);
    if 1 <= k <= |s.stCache| then Map(s.stCache[k - 1], st) else 0
  }

  /** The number is found in the table of the machine name. */
  lemma StNoIs(s: States, sm: string, st: string)
    requires StatesOk(s)
    ensures var s1 := WithSmt(s, sm);
            var r := StateIn(Padded(s1, s1.smtCache[sm]), s1.smtCache[sm] - 1, st);
            WithSt(s, sm, st) == r && StNo(r, sm, st) == Map(r.stCache[s1.smtCache[sm] - 1], st)
  {
  }

  /** One more state table. */
  lemma PadOne(s: States, n: nat)
    requires StatesOk(s) && |s.stCache| < n <= |s.smtNames|
    ensures var r := s.(stCache := s.stCache + [map[]], stNames := s.stNames + [[]]);
            StatesOk(r) && Padded(r, n) == Padded(s, n)
  {
    var r := s.(stCache := s.stCache + [map[]], stNames := s.stNames + [[]]);
    assert forall i :: StateTableOk(s, i) ==> StateTableOk(r, i);
  }

  /** The number found after a state has been named is the one it had or was to get. */
  lemma NextStIs(s: States, sm: string, st: string)
    requires StatesOk(s)
    ensures StNo(WithSt(s, sm, st), sm, st) == NextSt(s, sm, st)
  {
    var s1 := WithSmt(s, sm);
    assert NumberOk(s.smtCache, s.smtNames, sm);
    PaddedTables(s1, s1.smtCache[sm]);
  }

  lemma {:induction false} PaddedTables(s: States, n: nat)
    requires StatesOk(s) && n <= |s.smtNames|
    ensures s.stCache <= Padded(s, n).stCache && s.stNames <= Padded(s, n).stNames
    ensures forall i | |s.stCache| <= i < |Padded(s, n).stCache| ::
              && Padded(s, n).stCache[i] == map[]
              && Padded(s, n).stNames[i] == []
    decreases n - |s.stCache|
  {
    if |s.stCache| >= n {
    } else {
      var r := s.(stCache := s.stCache + [map[]], stNames := s.stNames + [[]]);
      assert forall i :: StateTableOk(s, i) ==> StateTableOk(r, i);
      PaddedTables(r, n);
    }
  }
}
