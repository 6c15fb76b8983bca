/**
 Which machines run: what every call does to the stacks and to the links between
 machines, when it stops, and the stacks after every run against plain lists.
 */
module AnnotateStacks {
  import opened Basics
  import opened AnnotateNames
  import opened AnnotateQueues
  import opened AnnotateTrace
  import opened AnnotateModel
  import opened AnnotateRuns

  // ----- what one call does to the machines

  /** The context a call is about; its system has or gets its number. */
  ghost function Context(st: State, sys: int, frame: nat): StackId
    requires Inv(st)
  {
    StackId(SysNo(GetSys(st, sys), sys), frame)
  }

  /** The machine on top of a stack has the name. */
  ghost predicate TopNamed(st: State, sid: StackId, sm: string)
    requires Inv(st) && Stack(st, sid) != []
  {
    TopIsMachine(st, sid);
    st.names.smMap[Top(st, sid) - 1].1.name == sm
  }

  /** One machine less on a stack, and its link to another gone; nothing else. */
  ghost predicate OneEnded(st: State, r: State, sid: StackId)
    requires Stack(st, sid) != []
  {
    && Stack(r, sid) == Stack(st, sid)[..|Stack(st, sid)| - 1]
    && (forall s | s != sid :: Stack(r, s) == Stack(st, s))
    && r.machines.lnMap == st.machines.lnMap - {Top(st, sid)}
    && r.machines.lastState == st.machines.lastState && r.states == st.states
  }

  lemma EndTopIs(st: State, now: nat, cpu: int, sid: StackId, sm: string)
    requires Inv(st) && Stack(st, sid) != []
    ensures var r := EndTop(st, now, cpu, sid, sm);
            if TopNamed(st, sid, sm) then OneEnded(st, r, sid) else r == st
  {
    Open(st);
    TopIsMachine(st, sid);
    if TopNamed(st, sid, sm) {
      var smi := Top(st, sid);
      assert smi in st.machines.lnMap ==> st.machines.lnMap[smi] >= 1;
      assert smi !in st.machines.lnMap ==> st.machines.lnMap - {smi} == st.machines.lnMap;
    }
  }

  /** Ending takes the top machine off exactly when it has the name, and stops on an empty stack. */
  lemma SmEndIs(st: State, now: nat, cpu: int, sys: int, sm: string, frame: nat)
    requires Inv(st)
    ensures var o, sid := SmEnd(st, now, cpu, sys, sm, frame), Context(st, sys, frame);
            if Stack(st, sid) == [] then o == Stopped(st.trace)
            else o.Fine? && if TopNamed(st, sid, sm) then OneEnded(st, o.st, sid)
                            else o.st.machines == st.machines && o.st.trace == st.trace
  {
    var st1, sid := GetSys(st, sys), Context(st, sys, frame);
    if Stack(st, sid) != [] {
      EndTopIs(st1, now, cpu, sid, sm);
    }
  }

  /** Announcing leaves the machines alone, but for the end that may go with it. */
  lemma SyscallLinkIs(st: State, now: nat, cpu: int, sys: int, frame: nat, lsm: string, end: Option<string>)
    requires Inv(st)
    ensures var o, sid := SyscallLink(st, now, cpu, sys, frame, lsm, end), Context(st, sys, frame);
            o.Fine? ==>
              if Stack(st, sid) != [] && end.Some? && TopNamed(st, sid, end.value) then OneEnded(st, o.st, sid)
              else o.st.machines == st.machines
  {
    var st1, sid := GetSys(st, sys), Context(st, sys, frame);
    if Stack(st, sid) != [] && !Waiting(st1, sid, lsm) && end.Some? {
      TopIsMachine(st1, sid);
      var st2 := Hold(st1, now, cpu, Top(st1, sid), sid, lsm);
      EndTopIs(st2, now, cpu, sid, end.value);
    }
  }

  /** Beginning puts the machine on top of its stack, with its link and last state, and changes no other stack. */
  lemma SmBeginIs(st: State, now: nat, cpu: int, sys: int, frame: nat, sm: string, id: nat, flags: bv8, name: string)
    requires Inv(st) && SmBegin(st, now, cpu, sys, frame, sm, id, flags, name).Fine?
    ensures Named(st, sys, Id(sm, id)).Some?
    ensures var r, st1 := SmBegin(st, now, cpu, sys, frame, sm, id, flags, name).st, Named(st, sys, Id(sm, id)).value;
            var sid := StackId(SysNo(st1, sys), frame);
            var smi := SmNo(st1, sid.sys, Id(sm, id));
            && r.names == st1.names
            && r.machines.smStack == st.machines.smStack[sid := Stack(st, sid) + [smi]]
            && (Waiting(st1, sid, sm) ==> WaitingLink(st1, sid, sm) < |st1.trace.pool|)
            && r.machines.lnMap == LinksAfter(st1, sid, sm, smi, flags) && !Waiting(r, sid, sm)
  {
    var st1 := Named(st, sys, Id(sm, id)).value;
    var sid := StackId(SysNo(st1, sys), frame);
    StartIs(st1, now, cpu, sid, sm, SmNo(st1, sid.sys, Id(sm, id)), flags);
  }

  /** Starting a machine touches no states. */
  lemma StartStates(st: State, now: nat, cpu: int, sid: StackId, sm: string, smi: int, flags: bv8)
    requires Inv(st) && IsMachine(st, smi, sid.sys, sm) && 1 <= sid.sys <= |st.names.systems|
    requires Start(st, now, cpu, sid, sm, smi, flags).Fine?
    ensures var r := Start(st, now, cpu, sid, sm, smi, flags).st;
            r.states == st.states && r.machines.lastState == st.machines.lastState
  {
    if LinksBack(st, sid, flags) {
      TopIsMachine(st, sid);
    }
  }

  lemma MaybeBeginStates(st: State, now: nat, cpu: int, smi: int, sm: string, name: string)
    requires Inv(st)
    ensures StatesOk(st.states)
    ensures StatesBegun(st, MaybeBegin(st, now, cpu, smi, sm, name), smi, sm, name)
  {
    Open(st);
  }

  /** A known state is named and remembered for the machine. */
  ghost predicate StatesBegun(st: State, r: State, smi: int, sm: string, name: string)
    requires StatesOk(st.states)
  {
    if name == "" then r.states == st.states && r.machines.lastState == st.machines.lastState
    else
      && r.states == WithSt(st.states, sm, name)
      && r.machines.lastState == st.machines.lastState[smi := StNo(r.states, sm, name)]
  }

  /** Beginning in a known state names the state and remembers it for the machine. */
  lemma SmBeginStates(st: State, now: nat, cpu: int, sys: int, frame: nat, sm: string, id: nat, flags: bv8,
                      name: string)
    requires Inv(st) && SmBegin(st, now, cpu, sys, frame, sm, id, flags, name).Fine?
    ensures Named(st, sys, Id(sm, id)).Some? && StatesOk(st.states)
    ensures var r, st1 := SmBegin(st, now, cpu, sys, frame, sm, id, flags, name).st, Named(st, sys, Id(sm, id)).value;
            StatesBegun(st, r, SmNo(st1, SysNo(st1, sys), Id(sm, id)), sm, name)
  {
    var st1 := Named(st, sys, Id(sm, id)).value;
    var sid := StackId(SysNo(st1, sys), frame);
    var smi := SmNo(st1, sid.sys, Id(sm, id));
    var o := Start(st1, now, cpu, sid, sm, smi, flags);
    StartStates(st1, now, cpu, sid, sm, smi, flags);
    MaybeBeginStates(o.st, now, cpu, smi, sm, name);
  }

  // ----- when a call stops

  /** A queue that has no number cannot get one. */
  ghost predicate NoQueueNumber(st: State, sid: StackId, q: Id) {
    QNo(st, sid.sys, q) == 0 && |st.names.qMap| + 1 >= MAX_ID
  }

  /** Where a queue call acts, and when it cannot. */
  lemma LocateIs(st: State, sys: int, frame: nat, q: Id)
    requires Inv(st)
    ensures var p, st1, sid := Locate(st, sys, frame, q), GetSys(st, sys), Context(st, sys, frame);
            && (p.Nowhere? <==> Stack(st, sid) == [])
            && (p.NoNumber? <==> Stack(st, sid) != [] && NoQueueNumber(st1, sid, q))
            && (p.On? ==> p.smi == Top(st, sid))
  {
  }

  /** A machine cannot get a number, or would be linked twice. */
  ghost predicate CannotBegin(st: State, sid: StackId, id: Id, flags: bv8) {
    var known := SmNo(st, sid.sys, id);
    if known == 0 && |st.names.smMap| + 1 >= MAX_ID then true
    else !CanStart(st, sid, id.name, if known != 0 then known else |st.names.smMap| + 1, flags)
  }

  /** Every call stops exactly when an assertion of the source fails, or bytes are missing. */
  ghost predicate Stops(st: State, c: Command)
    requires Inv(st)
  {
    match c
    case Begin(_, _, sys, frame, sm, id, flags, _) =>
      CannotBegin(GetSys(st, sys), Context(st, sys, frame), Id(sm, id), flags)
    case End(_, _, sys, frame, _) => Stack(st, Context(st, sys, frame)) == []
    case Announce(_, _, sys, frame, lsm, _) =>
      var sid := Context(st, sys, frame);
      Stack(st, sid) != [] && Waiting(st, sid, lsm)
    case Queue(_, _, sys, frame, q, _) =>
      Stack(st, Context(st, sys, frame)) != [] && NoQueueNumber(GetSys(st, sys), Context(st, sys, frame), q)
    case Dequeue(_, _, sys, frame, q, amount) =>
      var st1, sid := GetSys(st, sys), Context(st, sys, frame);
      && Stack(st, sid) != []
      && (NoQueueNumber(st1, sid, q) || !(amount == -1 || 0 < amount <= |QueueStream(st, st1, sid, q)|))
    case Resize(_, _, sys, frame, q, _, _) =>
      Stack(st, Context(st, sys, frame)) != [] && NoQueueNumber(GetSys(st, sys), Context(st, sys, frame), q)
    case WriteAll => false
  }

  /** What a queue holds; nothing when it is new. */
  ghost function QueueStream(st: State, st1: State, sid: StackId, q: Id): seq<nat>
    requires Inv(st)
  {
    if QNo(st1, sid.sys, q) == 0 then [] else StreamOf(st, QNo(st1, sid.sys, q) - 1)
  }

  lemma BeginStops(st: State, now: nat, cpu: int, sys: int, frame: nat, sm: string, id: nat, flags: bv8, name: string)
    requires Inv(st)
    ensures SmBegin(st, now, cpu, sys, frame, sm, id, flags, name).Stopped?
            <==> CannotBegin(GetSys(st, sys), Context(st, sys, frame), Id(sm, id), flags)
  {
    NamedBegins(GetSys(st, sys), now, cpu, Context(st, sys, frame), Id(sm, id), flags, name);
  }

  /** The same once the system has its number. */
  lemma NamedBegins(st: State, now: nat, cpu: int, sid: StackId, id: Id, flags: bv8, name: string)
    requires Inv(st) && 1 <= sid.sys <= |st.names.systems|
    ensures var st1 := GetSm(st, sid.sys, id);
            if st1.None? then CannotBegin(st, sid, id, flags)
            else
              Begun(st1.value, now, cpu, sid, id.name, SmNo(st1.value, sid.sys, id), flags, name).Stopped?
              <==> CannotBegin(st, sid, id, flags)
  {
    var st1 := GetSm(st, sid.sys, id);
    if st1.Some? {
      var smi := SmNo(st1.value, sid.sys, id);
      NumberOfMachine(st, sid.sys, id);
      BegunStops(st1.value, now, cpu, sid, id.name, smi, flags, name);
      SameStart(st, st1.value, sid, id.name, smi, flags);
    }
  }

  lemma SameStart(a: State, b: State, sid: StackId, sm: string, smi: int, flags: bv8)
    requires a.machines == b.machines && a.links == b.links
    ensures CanStart(a, sid, sm, smi, flags) <==> CanStart(b, sid, sm, smi, flags)
  {
  }

  lemma BegunStops(st: State, now: nat, cpu: int, sid: StackId, sm: string, smi: int, flags: bv8, name: string)
    requires Inv(st) && IsMachine(st, smi, sid.sys, sm) && 1 <= sid.sys <= |st.names.systems|
    ensures Begun(st, now, cpu, sid, sm, smi, flags, name).Stopped? <==> !CanStart(st, sid, sm, smi, flags)
  {
    StartIs(st, now, cpu, sid, sm, smi, flags);
  }

  lemma NumberOfMachine(st: State, sysi: int, id: Id)
    requires Inv(st) && 1 <= sysi <= |st.names.systems| && GetSm(st, sysi, id).Some?
    ensures SmNo(GetSm(st, sysi, id).value, sysi, id)
            == if SmNo(st, sysi, id) != 0 then SmNo(st, sysi, id) else |st.names.smMap| + 1
  {
    Open(st);
    assert EntryOk(st.names.smCache, st.names.smMap, sysi - 1, id);
  }

  lemma DequeueStops(st: State, c: Command)
    requires Inv(st) && c.Dequeue?
    ensures Exec(st, c).Stopped? <==> Stops(st, c)
  {
    var st1, sid, p := GetSys(st, c.sys), Context(st, c.sys, c.frame), Locate(st, c.sys, c.frame, c.q);
    LocateIs(st, c.sys, c.frame, c.q);
    if p.On? {
      KeptStream(st, p.st, p.qi - 1);
      NumberOfQueue(st1, sid.sys, c.q);
      NewQueueEmpty(st, p.qi - 1);
    }
  }

  lemma NumberOfQueue(st: State, sysi: int, q: Id)
    requires Inv(st) && 1 <= sysi <= |st.names.systems| && GetQ(st, sysi, q).Some?
    ensures QNo(GetQ(st, sysi, q).value, sysi, q)
            == if QNo(st, sysi, q) != 0 then QNo(st, sysi, q) else |st.names.qMap| + 1
  {
    GetQIs(st, sysi, q);
    assert EntryOk(st.names.qCache, st.names.qMap, sysi - 1, q);
  }

  lemma NewQueueEmpty(st: State, k: int)
    requires Inv(st)
    ensures k >= |st.names.qMap| ==> StreamOf(st, k) == []
  {
    Open(st);
  }

  /** A call stops exactly when it should. */
  lemma CallStops(st: State, c: Command)
    requires Inv(st)
    ensures Exec(st, c).Stopped? <==> Stops(st, c)
  {
    match c
    case Begin(now, cpu, sys, frame, sm, id, flags, state) =>
      BeginStops(st, now, cpu, sys, frame, sm, id, flags, state);
    case Announce(_, _, sys, frame, lsm, _) =>
    case Queue(_, _, sys, frame, q, _) => LocateIs(st, sys, frame, q);
    case Dequeue(_, _, _, _, _, _) => DequeueStops(st, c);
    case Resize(_, _, sys, frame, q, _, _) => LocateIs(st, sys, frame, q);
    case _ =>
  }

  // ----- the stacks after a run, as plain lists of names

  /** All of these are numbers of machines. */
  ghost predicate Machinery(st: State, stack: seq<int>) {
    forall i | 0 <= i < |stack| :: 1 <= stack[i] <= |st.names.smMap|
  }

  /** The machines on a stack, by name. */
  ghost function IdsOn(st: State, stack: seq<int>): (ids: seq<Id>)
    requires Machinery(st, stack)
    ensures |ids| == |stack| && forall i | 0 <= i < |stack| :: ids[i] == st.names.smMap[stack[i] - 1].1
  {
    seq(|stack|, i requires 0 <= i < |stack| => st.names.smMap[stack[i] - 1].1)
  }

  lemma OnStack(st: State, sid: StackId)
    requires Inv(st)
    ensures Machinery(st, Stack(st, sid))
    ensures Stack(st, sid) != [] ==> 1 <= sid.sys <= |st.names.systems|
  {
    Open(st);
    assert forall i | 0 <= i < |Stack(st, sid)| :: Stack(st, sid)[i] in st.machines.smStack[sid];
    if Stack(st, sid) != [] {
      var x := Stack(st, sid)[0];
      assert x in st.machines.smStack[sid];
      assert RowOk(st.names.smCache, st.names.smMap, x - 1);
    }
  }

  /** The machines that run in a frame of a system, the innermost last. */
  ghost function Running(st: State, sys: int, frame: nat): seq<Id>
    requires Inv(st)
  {
    OnStack(st, StackId(SysNo(st, sys), frame));
    IdsOn(st, Stack(st, StackId(SysNo(st, sys), frame)))
  }

  /** Numbers once given stay; a system without a number has no machines. */
  lemma SysNoStays(a: State, b: State, sys: int, frame: nat)
    requires Inv(a) && Inv(b) && Goes(a, b)
    ensures Stack(a, StackId(SysNo(a, sys), frame)) == Stack(a, StackId(SysNo(b, sys), frame))
    ensures sys in a.names.nameCache ==> SysNo(a, sys) == SysNo(b, sys)
  {
    Open(a);
    Open(b);
    OpenGoes(a, b);
    OnStack(a, StackId(SysNo(a, sys), frame));
    OnStack(a, StackId(SysNo(b, sys), frame));
    assert NumberOk(a.names.nameCache, a.names.systems, sys);
    assert NumberOk(b.names.nameCache, b.names.systems, sys);
    if sys in a.names.nameCache {
      assert ThingOk(b.names.nameCache, b.names.systems, SysNo(a, sys) - 1);
    } else if sys in b.names.nameCache && SysNo(b, sys) <= |a.names.systems| {
      assert ThingOk(a.names.nameCache, a.names.systems, SysNo(b, sys) - 1);
    }
  }

  lemma DifferentNumbers(st: State, sys1: int, sys2: int)
    requires Inv(st) && sys1 in st.names.nameCache && sys1 != sys2
    ensures SysNo(st, sys1) != SysNo(st, sys2)
  {
    Open(st);
    assert NumberOk(st.names.nameCache, st.names.systems, sys1);
    assert NumberOk(st.names.nameCache, st.names.systems, sys2);
  }

  /** Machines keep their names. */
  lemma IdsStay(a: State, b: State, stack: seq<int>)
    requires Goes(a, b) && Machinery(a, stack)
    ensures Machinery(b, stack) && IdsOn(a, stack) == IdsOn(b, stack)
  {
    OpenGoes(a, b);
  }

  /** A stack that did not change has the same machines. */
  lemma SameRunning(a: State, b: State, sys: int, frame: nat)
    requires Inv(a) && Inv(b) && Goes(a, b)
    requires var sid := StackId(SysNo(b, sys), frame); Stack(b, sid) == Stack(a, sid)
    ensures Running(b, sys, frame) == Running(a, sys, frame)
  {
    SysNoStays(a, b, sys, frame);
    OnStack(a, StackId(SysNo(a, sys), frame));
    IdsStay(a, b, Stack(a, StackId(SysNo(a, sys), frame)));
  }

  // ----- the plain lists

  function Closed(ids: seq<Id>, sm: string): seq<Id> {
    if ids != [] && ids[|ids| - 1].name == sm then ids[..|ids| - 1] else ids
  }

  /** What a call makes of the list of one frame of one system. */
  function Opened(ids: seq<Id>, c: Command, sys: int, frame: nat): seq<Id> {
    if c.WriteAll? || c.sys != sys || c.frame != frame then ids
    else
      match c
      case Begin(_, _, _, _, sm, id, _, _) => ids + [Id(sm, id)]
      case End(_, _, _, _, sm) => Closed(ids, sm)
      case Announce(_, _, _, _, _, end) => if end.Some? then Closed(ids, end.value) else ids
      case _ => ids
  }

  function OpenedAll(cs: seq<Command>, sys: int, frame: nat): seq<Id> {
    if cs == [] then [] else Opened(OpenedAll(cs[..|cs| - 1], sys, frame), cs[|cs| - 1], sys, frame)
  }

  // ----- each call does to the stacks what it does to the lists

  /** The contexts of two calls are the same only for the same system and frame. */
  lemma OtherContext(st: State, b: State, sys1: int, frame1: nat, sys2: int, frame2: nat)
    requires Inv(st) && Inv(b) && Goes(GetSys(st, sys1), b) && (sys1 != sys2 || frame1 != frame2)
    ensures StackId(SysNo(b, sys2), frame2) != Context(st, sys1, frame1)
  {
    var st1 := GetSys(st, sys1);
    Open(st1);
    assert ThingOk(st1.names.nameCache, st1.names.systems, SysNo(st1, sys1) - 1);
    SysNoStays(st1, b, sys1, frame1);
    if sys1 != sys2 {
      Open(b);
      OpenGoes(st1, b);
      assert ThingOk(b.names.nameCache, b.names.systems, SysNo(st1, sys1) - 1);
      DifferentNumbers(b, sys1, sys2);
    }
  }

  /** The context that a call works in is the one its frame and system have before and after. */
  lemma OwnContext(st: State, b: State, sys: int, frame: nat)
    requires Inv(st) && Inv(b) && Goes(GetSys(st, sys), b) && Goes(st, b)
    ensures StackId(SysNo(b, sys), frame) == Context(st, sys, frame)
    ensures Stack(st, StackId(SysNo(st, sys), frame)) == Stack(st, Context(st, sys, frame))
  {
    var st1 := GetSys(st, sys);
    Open(st1);
    assert ThingOk(st1.names.nameCache, st1.names.systems, SysNo(st1, sys) - 1);
    SysNoStays(st1, b, sys, frame);
    SysNoStays(st, st1, sys, frame);
  }

  /** The list of the context a call works in, when its stack becomes `stack`. */
  lemma BecomesRunning(st: State, b: State, sys: int, frame: nat, stack: seq<int>)
    requires Inv(st) && Inv(b) && Goes(GetSys(st, sys), b) && Goes(st, b)
    requires Stack(b, Context(st, sys, frame)) == stack
    ensures Machinery(b, stack) && Running(b, sys, frame) == IdsOn(b, stack)
    ensures var before := Stack(st, Context(st, sys, frame));
            Machinery(b, before) && Running(st, sys, frame) == IdsOn(b, before)
  {
    OwnContext(st, b, sys, frame);
    OnStack(b, Context(st, sys, frame));
    OnStack(st, Context(st, sys, frame));
    IdsStay(st, b, Stack(st, Context(st, sys, frame)));
  }

  /** A call about one context leaves the others alone. */
  lemma OthersRun(st: State, b: State, sys1: int, frame1: nat, sys: int, frame: nat)
    requires Inv(st) && Inv(b) && Goes(GetSys(st, sys1), b) && Goes(st, b) && (sys1 != sys || frame1 != frame)
    requires forall s | s != Context(st, sys1, frame1) :: Stack(b, s) == Stack(st, s)
    ensures Running(b, sys, frame) == Running(st, sys, frame)
  {
    OtherContext(st, b, sys1, frame1, sys, frame);
    SameRunning(st, b, sys, frame);
  }

  /** A machine more on top. */
  lemma OneMoreRuns(st: State, b: State, sys: int, frame: nat, smi: int, id: Id)
    requires Inv(st) && Inv(b) && Goes(GetSys(st, sys), b) && Goes(st, b)
    requires Stack(b, Context(st, sys, frame)) == Stack(st, Context(st, sys, frame)) + [smi]
    requires 1 <= smi <= |b.names.smMap| && b.names.smMap[smi - 1].1 == id
    ensures Running(b, sys, frame) == Running(st, sys, frame) + [id]
  {
    var stack := Stack(st, Context(st, sys, frame));
    BecomesRunning(st, b, sys, frame, stack + [smi]);
    IdsSnoc(b, stack, smi);
  }

  lemma IdsSnoc(st: State, stack: seq<int>, smi: int)
    requires Machinery(st, stack) && 1 <= smi <= |st.names.smMap|
    ensures Machinery(st, stack + [smi]) && IdsOn(st, stack + [smi]) == IdsOn(st, stack) + [st.names.smMap[smi - 1].1]
  {
  }

  /** The machine on top taken off. */
  lemma OneLessRuns(st: State, b: State, sys: int, frame: nat)
    requires Inv(st) && Inv(b) && Goes(GetSys(st, sys), b) && Goes(st, b)
    requires var stack := Stack(st, Context(st, sys, frame));
             stack != [] && Stack(b, Context(st, sys, frame)) == stack[..|stack| - 1]
    ensures var ids := Running(st, sys, frame); ids != [] && Running(b, sys, frame) == ids[..|ids| - 1]
  {
    var stack := Stack(st, Context(st, sys, frame));
    BecomesRunning(st, b, sys, frame, stack[..|stack| - 1]);
  }

  /** The name of the machine on top is the last of the list. */
  lemma LastIsTop(st: State, sys: int, frame: nat, sm: string)
    requires Inv(st)
    ensures var ids, sid := Running(st, sys, frame), Context(st, sys, frame);
            && (ids == [] <==> Stack(st, sid) == [])
            && (ids != [] ==> (TopNamed(st, sid, sm) <==> ids[|ids| - 1].name == sm))
  {
    var st1 := GetSys(st, sys);
    SysNoStays(st, st1, sys, frame);
  }

  /** A begin pushes a machine of its name on the stack of its context. */
  lemma BeginPushes(st: State, c: Command) returns (smi: int)
    requires Inv(st) && c.Begin? && Exec(st, c).Fine?
    ensures var b, sid := Exec(st, c).st, Context(st, c.sys, c.frame);
            && Goes(GetSys(st, c.sys), b) && b.machines.smStack == st.machines.smStack[sid := Stack(st, sid) + [smi]]
            && 1 <= smi <= |b.names.smMap| && b.names.smMap[smi - 1].1 == Id(c.sm, c.id)
  {
    var st1 := Named(st, c.sys, Id(c.sm, c.id)).value;
    SmBeginIs(st, c.now, c.cpu, c.sys, c.frame, c.sm, c.id, c.flags, c.state);
    BeginGoes(st, c);
    smi := SmNo(st1, SysNo(st1, c.sys), Id(c.sm, c.id));
  }

  lemma BeginRuns(st: State, c: Command, sys: int, frame: nat)
    requires Inv(st) && c.Begin? && Exec(st, c).Fine?
    ensures Running(Exec(st, c).st, sys, frame) == Opened(Running(st, sys, frame), c, sys, frame)
  {
    var b := Exec(st, c).st;
    var smi := BeginPushes(st, c);
    if c.sys == sys && c.frame == frame {
      OneMoreRuns(st, b, sys, frame, smi, Id(c.sm, c.id));
    } else {
      OthersRun(st, b, c.sys, c.frame, sys, frame);
    }
  }

  lemma BeginGoes(st: State, c: Command)
    requires Inv(st) && c.Begin? && Exec(st, c).Fine?
    ensures Named(st, c.sys, Id(c.sm, c.id)).Some? && Goes(GetSys(st, c.sys), Exec(st, c).st)
    ensures SysNo(Named(st, c.sys, Id(c.sm, c.id)).value, c.sys) == SysNo(GetSys(st, c.sys), c.sys)
  {
    var st1 := GetSys(st, c.sys);
    var sysi := SysNo(st1, c.sys);
    var st2 := GetSm(st1, sysi, Id(c.sm, c.id)).value;
    KeepsTransitive(st1, st2, Exec(st, c).st);
  }

  lemma EndRuns(st: State, c: Command, sys: int, frame: nat)
    requires Inv(st) && c.End? && Exec(st, c).Fine?
    ensures Running(Exec(st, c).st, sys, frame) == Opened(Running(st, sys, frame), c, sys, frame)
  {
    var b := Exec(st, c).st;
    SmEndIs(st, c.now, c.cpu, c.sys, c.sm, c.frame);
    EndsRun(st, b, c.sys, c.frame, c.sm, sys, frame);
  }

  /** A call that may end the machine on top, in one context. */
  lemma EndsRun(st: State, b: State, sys1: int, frame1: nat, sm: string, sys: int, frame: nat)
    requires Inv(st) && Inv(b) && Goes(GetSys(st, sys1), b) && Goes(st, b)
    requires var sid := Context(st, sys1, frame1);
             if Stack(st, sid) != [] && TopNamed(st, sid, sm) then OneEnded(st, b, sid) else b.machines == st.machines
    ensures Running(b, sys, frame)
            == if sys1 == sys && frame1 == frame then Closed(Running(st, sys, frame), sm) else Running(st, sys, frame)
  {
    LastIsTop(st, sys1, frame1, sm);
    if sys1 != sys || frame1 != frame {
      OthersRun(st, b, sys1, frame1, sys, frame);
    } else if Stack(st, Context(st, sys, frame)) != [] && TopNamed(st, Context(st, sys, frame), sm) {
      OneLessRuns(st, b, sys, frame);
    } else {
      SameRunning(st, b, sys, frame);
    }
  }

  lemma AnnounceRuns(st: State, c: Command, sys: int, frame: nat)
    requires Inv(st) && c.Announce? && Exec(st, c).Fine?
    ensures Running(Exec(st, c).st, sys, frame) == Opened(Running(st, sys, frame), c, sys, frame)
  {
    var b := Exec(st, c).st;
    SyscallLinkIs(st, c.now, c.cpu, c.sys, c.frame, c.lsm, c.end);
    if c.end.Some? {
      EndsRun(st, b, c.sys, c.frame, c.end.value, sys, frame);
    } else {
      SameRunning(st, b, sys, frame);
    }
  }

  lemma QueueCallRuns(st: State, c: Command, sys: int, frame: nat)
    requires Inv(st) && (c.Queue? || c.Dequeue? || c.Resize? || c.WriteAll?) && Exec(st, c).Fine?
    ensures Running(Exec(st, c).st, sys, frame) == Opened(Running(st, sys, frame), c, sys, frame)
  {
    assert Exec(st, c).st.machines == st.machines;
    SameRunning(st, Exec(st, c).st, sys, frame);
  }

  /** Every call does to the machines that run what it does to the lists. */
  lemma CallRuns(st: State, c: Command, sys: int, frame: nat)
    requires Inv(st) && Exec(st, c).Fine?
    ensures Running(Exec(st, c).st, sys, frame) == Opened(Running(st, sys, frame), c, sys, frame)
  {
    match c
    case Begin(_, _, _, _, _, _, _, _) => BeginRuns(st, c, sys, frame);
    case End(_, _, _, _, _) => EndRuns(st, c, sys, frame);
    case Announce(_, _, _, _, _, _) => AnnounceRuns(st, c, sys, frame);
    case _ => QueueCallRuns(st, c, sys, frame);
  }

  /** After every run the machines running in every frame of every system are those on the plain lists. */
  lemma {:induction false} MachinesOfRun(cs: seq<Command>, sys: int, frame: nat)
    requires Run(cs).Fine?
    ensures Running(Run(cs).st, sys, frame) == OpenedAll(cs, sys, frame)
    decreases |cs|
  {
    if cs == [] {
    } else {
      var n := |cs| - 1;
      CallOfRun(cs, n);
      assert cs[..n + 1] == cs;
      MachinesOfRun(cs[..n], sys, frame);
      CallRuns(Run(cs[..n]).st, cs[n], sys, frame);
    }
  }

  /** What a begin leaves: the stack it found under a machine of the given name, other stacks as they were. */
  lemma BeginOnTop(st: State, c: Command)
    requires Inv(st) && c.Begin? && Exec(st, c).Fine?
    ensures var b, sid := Exec(st, c).st, Context(st, c.sys, c.frame);
            && Context(b, c.sys, c.frame) == sid
            && Stack(b, sid) != [] && Stack(b, sid)[..|Stack(b, sid)| - 1] == Stack(st, sid)
            && TopNamed(b, sid, c.sm)
            && forall s | s != sid :: Stack(b, s) == Stack(st, s)
  {
    var smi := BeginPushes(st, c);
    ContextStays(st, Exec(st, c).st, c.sys, c.frame);
    OnTop(st, Exec(st, c).st, Context(st, c.sys, c.frame), smi, c.sm);
  }

  lemma OnTop(st: State, b: State, sid: StackId, smi: int, sm: string)
    requires Inv(b) && b.machines.smStack == st.machines.smStack[sid := Stack(st, sid) + [smi]]
    requires 1 <= smi <= |b.names.smMap| && b.names.smMap[smi - 1].1.name == sm
    ensures Stack(b, sid) != [] && Stack(b, sid)[..|Stack(b, sid)| - 1] == Stack(st, sid) && TopNamed(b, sid, sm)
    ensures forall s | s != sid :: Stack(b, s) == Stack(st, s)
  {
  }

  lemma ContextStays(st: State, b: State, sys: int, frame: nat)
    requires Inv(st) && Inv(b) && Goes(GetSys(st, sys), b) && Goes(st, b)
    ensures Context(b, sys, frame) == Context(st, sys, frame)
  {
    OwnContext(st, b, sys, frame);
    Known(GetSys(st, sys), b, sys);
  }

  /** A system that has a number keeps it. */
  lemma Known(a: State, b: State, sys: int)
    requires Inv(a) && Inv(b) && Goes(a, b) && SysNo(a, sys) >= 1
    ensures sys in b.names.nameCache && GetSys(b, sys) == b
  {
    SysNoStays(a, b, sys, 0);
  }

  /** A machine that begins and then ends leaves every stack as it was. */
  lemma BeginEndRestores(st: State, b: Command, e: Command, sid: StackId)
    requires Inv(st) && b.Begin? && e.End? && b.sys == e.sys && b.frame == e.frame && b.sm == e.sm
    requires Exec(st, b).Fine?
    ensures var o := Exec(Exec(st, b).st, e); o.Fine? && Stack(o.st, sid) == Stack(st, sid)
  {
    BeginOnTop(st, b);
    SmEndIs(Exec(st, b).st, e.now, e.cpu, e.sys, e.sm, e.frame);
  }
}
