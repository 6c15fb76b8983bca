/**
 Whole runs of the annotator: what holds after every list of calls, and what each
 call of a run does to the trace, the announced links and the queues.
 */
module AnnotateRuns {
  import opened Basics
  import opened AnnotateNames
  import opened AnnotateQueues
  import opened AnnotateTrace
  import opened AnnotateModel

  datatype Command =
    | Begin(now: nat, cpu: int, sys: int, frame: nat, sm: string, id: nat, flags: bv8, state: string)
    | End(now: nat, cpu: int, sys: int, frame: nat, sm: string)
    | Announce(now: nat, cpu: int, sys: int, frame: nat, lsm: string, end: Option<string>)
    | Queue(now: nat, cpu: int, sys: int, frame: nat, q: Id, count: nat)
    | Dequeue(now: nat, cpu: int, sys: int, frame: nat, q: Id, amount: int)
    | Resize(now: nat, cpu: int, sys: int, frame: nat, q: Id, size: int, flags: bv8)
    | WriteAll

  function Exec(st: State, c: Command): (o: Outcome)
    requires Inv(st)
    ensures o.Fine? ==> Inv(o.st) && Goes(st, o.st) && o.st.trace.forced == (st.trace.forced || c.WriteAll?)
    ensures o.Stopped? ==> TraceOk(o.trace) && Follows(st.trace, o.trace)
  {
    Open(st);
    match c
    case Begin(now, cpu, sys, frame, sm, id, flags, state) => SmBegin(st, now, cpu, sys, frame, sm, id, flags, state)
    case End(now, cpu, sys, frame, sm) => SmEnd(st, now, cpu, sys, sm, frame)
    case Announce(now, cpu, sys, frame, lsm, end) => SyscallLink(st, now, cpu, sys, frame, lsm, end)
    case Queue(now, cpu, sys, frame, q, count) => SwQ(st, now, cpu, sys, frame, q, count)
    case Dequeue(now, cpu, sys, frame, q, amount) => SwDq(st, now, cpu, sys, frame, q, amount)
    case Resize(now, cpu, sys, frame, q, size, flags) => SwSq(st, now, cpu, sys, frame, q, size, flags)
    case WriteAll =>
      DumpedOk(st.trace, true);
      Fine(st.(trace := Dumped(st.trace, true)))
  }

  /** The records a call adds. */
  ghost function Emits(st: State, c: Command): seq<Rec>
    requires Inv(st)
  {
    match c
    case Begin(now, cpu, sys, frame, sm, id, flags, state) =>
      var n := Named(st, sys, Id(sm, id));
      if n.None? then []
      else
        var sysi := SysNo(n.value, sys);
        BeginRecs(n.value, now, cpu, StackId(sysi, frame), SmNo(n.value, sysi, Id(sm, id)), sm, flags, state)
    case End(now, cpu, sys, frame, sm) => TopRecs(st, now, cpu, StackId(SysNo(GetSys(st, sys), sys), frame), sm)
    case Announce(now, cpu, sys, frame, lsm, end) =>
      AnnounceRecs(GetSys(st, sys), now, cpu, StackId(SysNo(GetSys(st, sys), sys), frame), end)
    case Queue(now, cpu, sys, frame, q, count) =>
      var p := Locate(st, sys, frame, q);
      if p.On? && count > 0 then [Made(now, OP_QUEUE, FL_NONE, cpu, p.smi, p.qi, count)] else []
    case Dequeue(now, cpu, sys, frame, q, amount) =>
      var p := Locate(st, sys, frame, q);
      if p.On? then [Made(now, OP_DEQUEUE, FL_NONE, cpu, p.smi, p.qi, amount)] else []
    case Resize(now, cpu, sys, frame, q, size, flags) =>
      var p := Locate(st, sys, frame, q);
      if !p.On? then []
      else if flags & FL_RESET != 0 then
        [Made(now, OP_SIZE_QUEUE, FL_NONE, cpu, p.smi, p.qi, 0)] + SizeRecs(now, cpu, p.smi, p.qi, size, 0)
      else SizeRecs(now, cpu, p.smi, p.qi, size, BytesIn(p.st, p.qi - 1))
    case WriteAll => []
  }

  /** The records there were, the one whose machine begins having got its target. */
  ghost function PoolBefore(st: State, c: Command): seq<Rec>
    requires Inv(st)
  {
    if !c.Begin? then st.trace.pool
    else
      var n := Named(st, c.sys, Id(c.sm, c.id));
      if n.None? then st.trace.pool
      else
        var sysi := SysNo(n.value, c.sys);
        PoolBegun(n.value, StackId(sysi, c.frame), c.sm, SmNo(n.value, sysi, Id(c.sm, c.id)))
  }

  lemma QueueEmits(st: State, c: Command)
    requires Inv(st) && c.Queue? && Exec(st, c).Fine?
    ensures Exec(st, c).st.trace.pool == st.trace.pool + Emits(st, c)
  {
  }

  lemma DequeueEmits(st: State, c: Command)
    requires Inv(st) && c.Dequeue? && Exec(st, c).Fine?
    ensures Exec(st, c).st.trace.pool == st.trace.pool + Emits(st, c)
  {
  }

  lemma ResizeEmits(st: State, c: Command)
    requires Inv(st) && c.Resize? && Exec(st, c).Fine?
    ensures Exec(st, c).st.trace.pool == st.trace.pool + Emits(st, c)
  {
  }

  lemma AnnounceEmits(st: State, c: Command)
    requires Inv(st) && c.Announce? && Exec(st, c).Fine?
    ensures Exec(st, c).st.trace.pool == st.trace.pool + Emits(st, c)
  {
    var st1 := GetSys(st, c.sys);
    var sid := StackId(SysNo(st1, c.sys), c.frame);
    if Stack(st1, sid) != [] {
      AnnounceRecords(st1, c.now, c.cpu, sid, c.lsm, c.end);
    }
  }

  /** Every call adds exactly the records it should and changes earlier ones only in the target of an announced link. */
  lemma CallEmits(st: State, c: Command)
    requires Inv(st) && Exec(st, c).Fine?
    ensures Exec(st, c).st.trace.pool == PoolBefore(st, c) + Emits(st, c)
  {
    match c
    case Begin(now, cpu, sys, frame, sm, id, flags, state) =>
      SmBeginRecords(st, now, cpu, sys, frame, sm, id, flags, state);
    case Announce(_, _, _, _, _, _) => AnnounceEmits(st, c);
    case Queue(_, _, _, _, _, _) => QueueEmits(st, c);
    case Dequeue(_, _, _, _, _, _) => DequeueEmits(st, c);
    case Resize(_, _, _, _, _, _, _) => ResizeEmits(st, c);
    case _ =>
  }

  /** What a call makes of queue k: queueing appends, dequeueing takes the front, resizing changes the back. */
  ghost function StreamAfter(st: State, c: Command, k: int): seq<nat>
    requires Inv(st)
  {
    match c
    case Queue(_, _, sys, frame, q, count) => AfterQ(st, sys, frame, q, count, k)
    case Dequeue(_, _, sys, frame, q, amount) => AfterDq(st, sys, frame, q, amount, k)
    case Resize(_, _, sys, frame, q, size, flags) => AfterSq(st, sys, frame, q, size, flags, k)
    case _ => StreamOf(st, k)
  }

  lemma QueueStreams(st: State, c: Command, k: int)
    requires Inv(st) && c.Queue? && Exec(st, c).Fine?
    ensures StreamOf(Exec(st, c).st, k) == StreamAfter(st, c, k)
  {
    SwQStream(st, c.now, c.cpu, c.sys, c.frame, c.q, c.count, k);
  }

  lemma DequeueStreams(st: State, c: Command, k: int)
    requires Inv(st) && c.Dequeue? && Exec(st, c).Fine?
    ensures StreamOf(Exec(st, c).st, k) == StreamAfter(st, c, k)
  {
    SwDqStream(st, c.now, c.cpu, c.sys, c.frame, c.q, c.amount, k);
  }

  lemma ResizeStreams(st: State, c: Command, k: int)
    requires Inv(st) && c.Resize? && Exec(st, c).Fine?
    ensures StreamOf(Exec(st, c).st, k) == StreamAfter(st, c, k)
  {
    SwSqStream(st, c.now, c.cpu, c.sys, c.frame, c.q, c.size, c.flags, k);
  }

  lemma MachineStreams(st: State, c: Command, k: int)
    requires Inv(st) && (c.Begin? || c.End? || c.Announce?) && Exec(st, c).Fine?
    ensures StreamOf(Exec(st, c).st, k) == StreamOf(st, k)
  {
    KeptStream(st, Exec(st, c).st, k);
  }

  /** Every call does to every queue what it should; calls about machines leave all queues alone. */
  lemma CallStreams(st: State, c: Command, k: int)
    requires Inv(st) && Exec(st, c).Fine?
    ensures StreamOf(Exec(st, c).st, k) == StreamAfter(st, c, k)
  {
    match c
    case Queue(_, _, _, _, _, _) => QueueStreams(st, c, k);
    case Dequeue(_, _, _, _, _, _) => DequeueStreams(st, c, k);
    case Resize(_, _, _, _, _, _, _) => ResizeStreams(st, c, k);
    case WriteAll =>
    case _ => MachineStreams(st, c, k);
  }

  /** A record held back is let go only by the beginning of the machine it waits for. */
  lemma CallReleases(st: State, c: Command, n: nat)
    requires Inv(st) && Exec(st, c).Fine? && n < |st.trace.pool| && !st.trace.pool[n].dump
    ensures var st' := Exec(st, c).st; n < |st'.trace.pool| && (st'.trace.pool[n].dump ==> BeginsFor(st, c, st', n))
  {
    CallEmits(st, c);
    if c.Begin? {
      BeginReleases(st, c, n);
    }
  }

  lemma PoolReleases(st: State, sid: StackId, sm: string, smi: int, n: nat)
    requires Inv(st) && n < |st.trace.pool| && !st.trace.pool[n].dump
    ensures var pool := PoolBegun(st, sid, sm, smi);
            && |pool| == |st.trace.pool|
            && (pool[n].dump ==>
                 && n in st.links.awaited && st.links.awaited[n] == (sid.sys - 1, Id(sm, sid.frame))
                 && pool[n].stq == smi)
  {
    Open(st);
    assert FileOk(st.links, st.trace.pool, sid.sys - 1, Id(sm, sid.frame));
  }

  lemma ReleaseFits(st: State, c: Command, st1: State, st': State, smi: int, rest: seq<Rec>, n: nat)
    requires Inv(st1) && c.Begin? && st1.links.awaited == st.links.awaited && st'.names == st1.names
    requires 1 <= smi <= |st1.names.smMap| && st1.names.smMap[smi - 1] == (SysNo(st1, c.sys), Id(c.sm, c.id))
    requires st'.trace.pool == PoolBegun(st1, StackId(SysNo(st1, c.sys), c.frame), c.sm, smi) + rest
    requires n < |st1.trace.pool| && !st1.trace.pool[n].dump
    ensures n < |st'.trace.pool| && (st'.trace.pool[n].dump ==> BeginsFor(st, c, st', n))
  {
    PoolReleases(st1, StackId(SysNo(st1, c.sys), c.frame), c.sm, smi, n);
  }

  lemma BeginReleases(st: State, c: Command, n: nat)
    requires Inv(st) && c.Begin? && Exec(st, c).Fine? && n < |st.trace.pool| && !st.trace.pool[n].dump
    ensures var st' := Exec(st, c).st; n < |st'.trace.pool| && (st'.trace.pool[n].dump ==> BeginsFor(st, c, st', n))
  {
    SmBeginRecords(st, c.now, c.cpu, c.sys, c.frame, c.sm, c.id, c.flags, c.state);
    var st1 := Named(st, c.sys, Id(c.sm, c.id)).value;
    var sysi := SysNo(st1, c.sys);
    var smi := SmNo(st1, sysi, Id(c.sm, c.id));
    ReleaseFits(st, c, st1, Exec(st, c).st, smi,
                BeginRecs(st1, c.now, c.cpu, StackId(sysi, c.frame), smi, c.sm, c.flags, c.state), n);
  }

  /** Command c begins the machine that record n of st waits for, and gives the record its number. */
  ghost predicate BeginsFor(st: State, c: Command, st': State, n: nat) {
    && n in st.links.awaited && c.Begin? && n < |st'.trace.pool|
    && st.links.awaited[n] == (SysNo(st', c.sys) - 1, Id(c.sm, c.frame))
    && 1 <= st'.trace.pool[n].stq <= |st'.names.smMap|
    && st'.names.smMap[st'.trace.pool[n].stq - 1] == (SysNo(st', c.sys), Id(c.sm, c.id))
  }

  /** The bytes a call queues in queue k, and those it dequeues there. */
  ghost function Brought(st: State, c: Command, k: int): seq<nat>
    requires Inv(st)
  {
    if !c.Queue? || c.count == 0 then []
    else
      var p := Locate(st, c.sys, c.frame, c.q);
      if p.On? && k == p.qi - 1 then Bytes(Item(|st.trace.pool|, c.count)) else []
  }

  ghost function Taken(st: State, c: Command, k: int): seq<nat>
    requires Inv(st)
  {
    if !c.Dequeue? then []
    else
      var p, s := Locate(st, c.sys, c.frame, c.q), StreamOf(st, k);
      if !p.On? || k != p.qi - 1 then [] else if 0 < c.amount <= |s| then s[..c.amount] else s
  }

  /** Queues are first in, first out. */
  lemma CallIsFifo(st: State, c: Command, k: int)
    requires Inv(st) && !c.Resize?
    ensures StreamOf(st, k) + Brought(st, c, k) == Taken(st, c, k) + StreamAfter(st, c, k)
  {
    var s := StreamOf(st, k);
    assert s + [] == s == [] + s;
    if c.Dequeue? && 0 < c.amount <= |s| {
      assert s == s[..c.amount] + s[c.amount..];
    }
  }

  // ----- runs of any step function

  type Stepper = (State, Command) -> Outcome

  /** A step keeps the invariant and what has been named, added, written and announced. */
  ghost predicate StepOk(step: Stepper, st: State, c: Command) {
    Inv(st) ==>
      var o := step(st, c);
      if o.Fine? then Inv(o.st) && Goes(st, o.st) && o.st.trace.forced == (st.trace.forced || c.WriteAll?)
      else TraceOk(o.trace) && Follows(st.trace, o.trace)
  }

  ghost predicate Proper(step: Stepper) {
    forall st, c {:trigger StepOk(step, st, c)} :: StepOk(step, st, c)
  }

  /** A run from the start; the first call that fails ends it. */
  function RunBy(step: Stepper, cs: seq<Command>): Outcome {
    if cs == [] then Fine(Init())
    else
      var o := RunBy(step, cs[..|cs| - 1]);
      if o.Fine? then step(o.st, cs[|cs| - 1]) else o
  }

  function TraceOf(o: Outcome): Trace {
    if o.Fine? then o.st.trace else o.trace
  }

  /** The last step of a run. */
  lemma LastStep(step: Stepper, cs: seq<Command>)
    requires cs != [] && RunBy(step, cs).Fine?
    ensures var before := RunBy(step, cs[..|cs| - 1]); before.Fine? && step(before.st, cs[|cs| - 1]) == RunBy(step, cs)
  {
  }

  lemma {:induction false} RunKeepsInv(step: Stepper, cs: seq<Command>)
    requires Proper(step)
    ensures var o := RunBy(step, cs); if o.Fine? then Inv(o.st) else TraceOk(o.trace)
  {
    if cs == [] {
    } else {
      var before := cs[..|cs| - 1];
      RunKeepsInv(step, before);
      var o := RunBy(step, before);
      if o.Fine? {
        assert StepOk(step, o.st, cs[|cs| - 1]);
      }
    }
  }

  lemma GoesItself(st: State)
    ensures Goes(st, st)
  {
  }

  /** A run that goes through all its calls went through all calls before, and keeps what they did. */
  lemma {:induction false} PrefixGoes(step: Stepper, cs: seq<Command>, i: nat)
    requires Proper(step) && i <= |cs| && RunBy(step, cs).Fine?
    ensures RunBy(step, cs[..i]).Fine? && Goes(RunBy(step, cs[..i]).st, RunBy(step, cs).st)
    decreases |cs|
  {
    if i < |cs| {
      var before := cs[..|cs| - 1];
      LastStep(step, cs);
      RunKeepsInv(step, before);
      PrefixGoes(step, before, i);
      assert before[..i] == cs[..i];
      var a, b, c := RunBy(step, before[..i]).st, RunBy(step, before).st, RunBy(step, cs).st;
      assert StepOk(step, b, cs[|cs| - 1]);
      KeepsTransitive(a, b, c);
    } else {
      assert cs[..i] == cs;
      GoesItself(RunBy(step, cs).st);
    }
  }

  lemma {:induction false} PrefixFollows(step: Stepper, cs: seq<Command>, i: nat)
    requires Proper(step) && i <= |cs|
    ensures Follows(TraceOf(RunBy(step, cs[..i])), TraceOf(RunBy(step, cs)))
    decreases |cs|
  {
    if i < |cs| {
      var before, c := cs[..|cs| - 1], cs[|cs| - 1];
      RunKeepsInv(step, before);
      PrefixFollows(step, before, i);
      assert before[..i] == cs[..i];
      var o := RunBy(step, before);
      if o.Fine? {
        assert StepOk(step, o.st, c);
        if step(o.st, c).Fine? {
          OpenGoes(o.st, step(o.st, c).st);
        }
        FollowsTransitive(TraceOf(RunBy(step, cs[..i])), o.st.trace, TraceOf(step(o.st, c)));
      }
    } else {
      assert cs[..i] == cs;
    }
  }

  lemma {:induction false} ForcedIff(step: Stepper, cs: seq<Command>)
    requires Proper(step) && RunBy(step, cs).Fine?
    ensures RunBy(step, cs).st.trace.forced <==> WriteAll in cs
  {
    if cs == [] {
    } else {
      var before := cs[..|cs| - 1];
      LastStep(step, cs);
      RunKeepsInv(step, before);
      ForcedIff(step, before);
      assert StepOk(step, RunBy(step, before).st, cs[|cs| - 1]);
      assert cs == before + [cs[|cs| - 1]];
    }
  }

  /** A step that lets record n go begins the machine it waits for. */
  ghost predicate ReleaseOk(step: Stepper, st: State, c: Command, n: nat) {
    Inv(st) && step(st, c).Fine? && n < |st.trace.pool| && !st.trace.pool[n].dump ==>
      var st' := step(st, c).st;
      n < |st'.trace.pool| && (st'.trace.pool[n].dump ==> BeginsFor(st, c, st', n))
  }

  ghost predicate Patient(step: Stepper) {
    forall st, c, n {:trigger ReleaseOk(step, st, c, n)} :: ReleaseOk(step, st, c, n)
  }

  /** Record n is held back after the first i calls. */
  ghost predicate HeldAt(step: Stepper, cs: seq<Command>, i: nat, n: nat) {
    && i <= |cs| && RunBy(step, cs[..i]).Fine?
    && n < |RunBy(step, cs[..i]).st.trace.pool| && !RunBy(step, cs[..i]).st.trace.pool[n].dump
  }

  /** A record held back once and let go later was let go by a call that began the machine it waited for. */
  lemma {:induction false} LetGoByBegin(step: Stepper, cs: seq<Command>, i: nat, n: nat) returns (j: nat)
    requires Proper(step) && Patient(step) && RunBy(step, cs).Fine? && HeldAt(step, cs, i, n)
    requires n < |RunBy(step, cs).st.trace.pool| && RunBy(step, cs).st.trace.pool[n].dump
    ensures i <= j < |cs| && HeldAt(step, cs, j, n) && RunBy(step, cs[..j + 1]).Fine?
    ensures BeginsFor(RunBy(step, cs[..j]).st, cs[j], RunBy(step, cs[..j + 1]).st, n)
    decreases |cs|
  {
    assert cs[..|cs|] == cs;
    var before := cs[..|cs| - 1];
    LastStep(step, cs);
    RunKeepsInv(step, before);
    PrefixGoes(step, before, i);
    assert before[..i] == cs[..i];
    var st := RunBy(step, before).st;
    OpenGoes(RunBy(step, before[..i]).st, st);
    if st.trace.pool[n].dump {
      j := LetGoByBegin(step, before, i, n);
      assert before[..j] == cs[..j] && before[..j + 1] == cs[..j + 1];
    } else {
      j := |cs| - 1;
      assert ReleaseOk(step, st, cs[j], n);
      assert cs[..j + 1] == cs;
    }
  }

  /** A step does to every queue what the call should. */
  ghost predicate FifoOk(step: Stepper, st: State, c: Command, k: int) {
    Inv(st) && step(st, c).Fine? && !c.Resize? ==>
      Inv(step(st, c).st) && StreamOf(st, k) + Brought(st, c, k) == Taken(st, c, k) + StreamOf(step(st, c).st, k)
  }

  ghost predicate Fifo(step: Stepper) {
    forall st, c, k {:trigger FifoOk(step, st, c, k)} :: FifoOk(step, st, c, k)
  }

  /** The bytes queued in queue k over a run, and those dequeued there, in order. */
  ghost function AllBrought(step: Stepper, cs: seq<Command>, k: int): seq<nat>
    requires Proper(step) && RunBy(step, cs).Fine?
    decreases |cs|
  {
    if cs == [] then []
    else
      var before := cs[..|cs| - 1];
      LastStep(step, cs);
      RunKeepsInv(step, before);
      AllBrought(step, before, k) + Brought(RunBy(step, before).st, cs[|cs| - 1], k)
  }

  ghost function AllTaken(step: Stepper, cs: seq<Command>, k: int): seq<nat>
    requires Proper(step) && RunBy(step, cs).Fine?
    decreases |cs|
  {
    if cs == [] then []
    else
      var before := cs[..|cs| - 1];
      LastStep(step, cs);
      RunKeepsInv(step, before);
      AllTaken(step, before, k) + Taken(RunBy(step, before).st, cs[|cs| - 1], k)
  }

  ghost predicate NoResize(cs: seq<Command>) {
    forall i | 0 <= i < |cs| :: !cs[i].Resize?
  }

  /** Over a run without resizing, what was queued is what was dequeued followed by what is left, in order. */
  lemma {:induction false} RunIsFifo(step: Stepper, cs: seq<Command>, k: int)
    requires Proper(step) && Fifo(step) && RunBy(step, cs).Fine? && NoResize(cs)
    ensures Inv(RunBy(step, cs).st)
    ensures AllBrought(step, cs, k) == AllTaken(step, cs, k) + StreamOf(RunBy(step, cs).st, k)
    decreases |cs|
  {
    RunKeepsInv(step, cs);
    if cs == [] {
    } else {
      var before, c := cs[..|cs| - 1], cs[|cs| - 1];
      LastStep(step, cs);
      RunIsFifo(step, before, k);
      var st := RunBy(step, before).st;
      assert FifoOk(step, st, c, k);
      Regroup(AllTaken(step, before, k), StreamOf(st, k), Brought(st, c, k), Taken(st, c, k),
          StreamOf(step(st, c).st, k));
    }
  }

  lemma Regroup(a: seq<nat>, s: seq<nat>, b: seq<nat>, t: seq<nat>, s': seq<nat>)
    requires s + b == t + s'
    ensures a + s + b == a + t + s'
  {
    assert a + s + b == a + (s + b);
    assert a + t + s' == a + (t + s');
  }

  // ----- runs of the annotator

  ghost function TheStep(): Stepper {
    (st, c) => if Inv(st) then Exec(st, c) else Stopped(st.trace)
  }

  lemma TheStepIsProper()
    ensures Proper(TheStep())
  {
    forall st, c
      ensures StepOk(TheStep(), st, c)
    {
      if Inv(st) {
        var o := Exec(st, c);
      }
    }
  }

  lemma TheStepIsPatient()
    ensures Patient(TheStep())
  {
    forall st, c, n: nat
      ensures ReleaseOk(TheStep(), st, c, n)
    {
      if Inv(st) && Exec(st, c).Fine? && n < |st.trace.pool| && !st.trace.pool[n].dump {
        CallReleases(st, c, n);
      }
    }
  }

  lemma TheStepIsFifo()
    ensures Fifo(TheStep())
  {
    forall st, c, k
      ensures FifoOk(TheStep(), st, c, k)
    {
      if Inv(st) && Exec(st, c).Fine? && !c.Resize? {
        CallIsFifo(st, c, k);
        CallStreams(st, c, k);
      }
    }
  }

  /** A run starts with nothing named, running, queued, announced or recorded. */
  lemma StartsEmpty()
    ensures var st := Run([]).st;
            && Run([]).Fine? && st.trace == Trace([], [], false) && st.machines == Machines(map[], map[], map[])
            && st.names.systems == [] && st.names.smMap == [] && st.names.qMap == [] && st.states.smtNames == []
            && st.links == Links([], map[]) && st.queues == Queues([], [], [], [])
  {
  }

  /** How a list of calls ends, from the start. */
  ghost function Run(cs: seq<Command>): (o: Outcome)
    ensures if o.Fine? then Inv(o.st) else TraceOk(o.trace)
  {
    TheStepIsProper();
    RunKeepsInv(TheStep(), cs);
    RunBy(TheStep(), cs)
  }

  /**
   After every list of calls, also one that was stopped, the records written are
   the first records added, in order, each with its original count, and the
   others are pending. What was added or written stays so whatever calls follow.
   */
  lemma TraceIsComplete(cs: seq<Command>, i: nat)
    requires i <= |cs|
    ensures var t := TraceOf(Run(cs));
            && |t.written| <= |t.pool| && (forall j | 0 <= j < |t.written| :: SameButTarget(t.written[j], t.pool[j]))
            && Follows(TraceOf(Run(cs[..i])), t)
  {
    TheStepIsProper();
    PrefixFollows(TheStep(), cs, i);
    if Run(cs).Fine? {
      Open(Run(cs).st);
    }
  }

  /** Everything has been written, each record in full if it was written only now. */
  ghost predicate AllWritten(before: Trace, t: Trace) {
    && |t.written| == |t.pool| && before.written <= t.written
    && forall j | |before.written| <= j < |t.pool| :: AsAdded(t.written[j], t.pool[j])
  }

  /** A forced write-out leaves nothing pending. */
  lemma WriteAllWritesAll(cs: seq<Command>)
    requires cs != [] && cs[|cs| - 1] == WriteAll && Run(cs).Fine?
    ensures Run(cs[..|cs| - 1]).Fine? && AllWritten(Run(cs[..|cs| - 1]).st.trace, Run(cs).st.trace)
  {
    var n := |cs| - 1;
    CallOfRun(cs, n);
    assert cs[..n + 1] == cs;
    Open(Run(cs[..n]).st);
    DumpedIs(Run(cs[..n]).st.trace, true);
  }

  /** So does a dequeue that finds too few bytes and stops the run. */
  lemma FatalDequeueWritesAll(st: State, c: Command)
    requires Inv(st) && c.Dequeue? && c.amount > 0 && Exec(st, c).Stopped? && Locate(st, c.sys, c.frame, c.q).On?
    ensures AllWritten(st.trace, Exec(st, c).trace)
  {
    Open(st);
    DumpedIs(st.trace, true);
  }

  /** Call i of a run takes the state after the calls before it to the state after them and it. */
  lemma CallOfRun(cs: seq<Command>, i: nat)
    requires i < |cs| && Run(cs).Fine?
    ensures Run(cs[..i]).Fine? && Run(cs[..i + 1]) == Exec(Run(cs[..i]).st, cs[i]) && Run(cs[..i + 1]).Fine?
    ensures Goes(Run(cs[..i + 1]).st, Run(cs).st)
  {
    TheStepIsProper();
    StepOfRun(TheStep(), cs, i);
    RunKeepsInv(TheStep(), cs[..i]);
  }

  lemma StepOfRun(step: Stepper, cs: seq<Command>, i: nat)
    requires Proper(step) && i < |cs| && RunBy(step, cs).Fine?
    ensures RunBy(step, cs[..i]).Fine? && RunBy(step, cs[..i + 1]) == step(RunBy(step, cs[..i]).st, cs[i])
    ensures RunBy(step, cs[..i + 1]).Fine? && Goes(RunBy(step, cs[..i + 1]).st, RunBy(step, cs).st)
  {
    PrefixGoes(step, cs, i + 1);
    var front := cs[..i + 1];
    assert |front| - 1 == i && front[i] == cs[i];
    assert front[..i] == cs[..i];
    LastStep(step, front);
  }

  /** Each call of a run adds exactly the records it should, after the ones there were. */
  lemma RecordsOfRun(cs: seq<Command>, i: nat)
    requires i < |cs| && Run(cs).Fine?
    ensures Run(cs[..i]).Fine? && Run(cs[..i + 1]).Fine?
    ensures var st := Run(cs[..i]).st; Run(cs[..i + 1]).st.trace.pool == PoolBefore(st, cs[i]) + Emits(st, cs[i])
  {
    CallOfRun(cs, i);
    CallEmits(Run(cs[..i]).st, cs[i]);
  }

  /** Each call of a run does to every queue what it should: a dequeue takes the first bytes. */
  lemma StreamsOfRun(cs: seq<Command>, i: nat, k: int)
    requires i < |cs| && Run(cs).Fine?
    ensures Run(cs[..i]).Fine? && Run(cs[..i + 1]).Fine?
    ensures StreamOf(Run(cs[..i + 1]).st, k) == StreamAfter(Run(cs[..i]).st, cs[i], k)
  {
    CallOfRun(cs, i);
    CallStreams(Run(cs[..i]).st, cs[i], k);
  }

  /** Over every run without resizing, what was queued is what was dequeued followed by what is left, in order. */
  lemma QueuesAreFifo(cs: seq<Command>, k: int)
    requires Run(cs).Fine? && NoResize(cs)
    ensures Proper(TheStep()) && AllBrought(TheStep(), cs, k) == AllTaken(TheStep(), cs, k) + StreamOf(Run(cs).st, k)
  {
    TheStepIsProper();
    TheStepIsFifo();
    RunIsFifo(TheStep(), cs, k);
  }

  /** Unless a write-out was forced, no link is ever written without a target. */
  lemma WrittenLinksHaveTargets(cs: seq<Command>, i: nat)
    requires Run(cs).Fine? && WriteAll !in cs
    requires i < |Run(cs).st.trace.written| && Run(cs).st.trace.written[i].op == OP_LINK
    ensures var st := Run(cs).st;
            && 1 <= st.trace.written[i].stq <= |st.names.smMap| && st.trace.written[i].stq != UNKNOWN
            && (i in st.links.awaited ==> TargetOk(st.names.smMap, st.trace.written[i].stq, st.links.awaited[i]))
  {
    TheStepIsProper();
    ForcedIff(TheStep(), cs);
    var st := Run(cs).st;
    Open(st);
    assert RecOk(st.names.smMap, st.links, st.trace.pool, i);
    assert st.trace.written[i] == Form(st.trace.pool[i]);
  }

  /**
   Unless a write-out was forced, an announced link is written only after a call
   that began the machine it waited for: when that call came it was unwritten,
   and it has got that machine's number.
   */
  lemma AnnouncedLinksWait(cs: seq<Command>, i: nat, n: nat) returns (j: nat)
    requires Run(cs).Fine? && WriteAll !in cs && HeldAt(TheStep(), cs, i, n) && n < |Run(cs).st.trace.written|
    ensures i <= j < |cs| && Run(cs[..j]).Fine? && Run(cs[..j + 1]).Fine? && |Run(cs[..j]).st.trace.written| <= n
    ensures BeginsFor(Run(cs[..j]).st, cs[j], Run(cs[..j + 1]).st, n)
  {
    TheStepIsProper();
    TheStepIsPatient();
    ForcedIff(TheStep(), cs);
    Open(Run(cs).st);
    j := LetGoByBegin(TheStep(), cs, i, n);
    ForcedIff(TheStep(), cs[..j]);
    Open(Run(cs[..j]).st);
  }

  // ----- the begin after an end

  /** A first machine in a context of an empty annotator, without links. */
  lemma FirstBegin(sm: string, id: nat)
    ensures var o := SmBegin(Init(), 0, 0, 7, 0, sm, id, FL_NONE, "");
            && o.Fine? && SysNo(o.st, 7) == 1 && Stack(o.st, StackId(1, 0)) == [1]
            && o.st.names.smMap == [(1, Id(sm, id))]
            && o.st.links.scLinks == [map[]] && 7 in o.st.names.nameCache
  {
    var st1 := Named(Init(), 7, Id(sm, id)).value;
    assert st1.names.smMap == [(1, Id(sm, id))] && SysNo(st1, 7) == 1;
    StartIs(st1, 0, 0, StackId(1, 0), sm, 1, FL_NONE);
  }

  /** A second machine on top of the first. */
  lemma SecondBegin(st: State, first: Id, sm: string, id: nat)
    requires Inv(st) && 7 in st.names.nameCache && SysNo(st, 7) == 1 && Stack(st, StackId(1, 0)) == [1]
    requires st.names.smMap == [(1, first)] && Id(sm, id) != first && st.links.scLinks == [map[]]
    ensures var o := SmBegin(st, 0, 0, 7, 0, sm, id, FL_NONE, "");
            && o.Fine? && SysNo(o.st, 7) == 1 && 7 in o.st.names.nameCache && Stack(o.st, StackId(1, 0)) == [1, 2]
            && o.st.names.smMap == [(1, first), (1, Id(sm, id))]
  {
    Open(st);
    assert GetSys(st, 7) == st;
    assert EntryOk(st.names.smCache, st.names.smMap, 0, Id(sm, id));
    var st1 := Named(st, 7, Id(sm, id)).value;
    assert st1.names.smMap == [(1, first), (1, Id(sm, id))];
    StartIs(st1, 0, 0, StackId(1, 0), sm, 2, FL_NONE);
  }

  /** Ending the second machine records a begin of it, though the first is now on top. */
  lemma EndOfSecond(st: State, first: Id, second: Id)
    requires Inv(st) && 7 in st.names.nameCache && SysNo(st, 7) == 1 && Stack(st, StackId(1, 0)) == [1, 2]
    requires st.names.smMap == [(1, first), (1, second)]
    ensures var o := SmEnd(st, 0, 0, 7, second.name, 0);
            && o.Fine? && Stack(o.st, StackId(1, 0)) == [1] && |o.st.trace.pool| > 0
            && o.st.trace.pool[|o.st.trace.pool| - 1].op == OP_BEGIN && o.st.trace.pool[|o.st.trace.pool| - 1].sm == 2
  {
    assert GetSys(st, 7) == st;
    BeginAfterEnd(st, 0, 0, StackId(1, 0));
  }

  lemma RunsThree(step: Stepper, c1: Command, c2: Command, c3: Command, st1: State, st2: State, st3: State)
    requires step(Init(), c1) == Fine(st1) && step(st1, c2) == Fine(st2) && step(st2, c3) == Fine(st3)
    ensures RunBy(step, [c1, c2, c3]) == Fine(st3)
  {
    assert [c1, c2, c3][..2] == [c1, c2] && [c1, c2][..1] == [c1] && [c1][..0] == [];
    assert RunBy(step, []) == Fine(Init());
    assert RunBy(step, [c1]) == Fine(st1);
    assert RunBy(step, [c1, c2]) == Fine(st2);
  }

  /** The last record of a state begins machine 2, though machine 1 is on top of the stack. */
  ghost predicate WrongBegin(st: State) {
    && Stack(st, StackId(1, 0)) == [1] && |st.trace.pool| > 0
    && st.trace.pool[|st.trace.pool| - 1].op == OP_BEGIN && st.trace.pool[|st.trace.pool| - 1].sm == 2
  }

  lemma ThreeCalls() returns (st1: State, st2: State, st3: State)
    ensures SmBegin(Init(), 0, 0, 7, 0, "a", 1, FL_NONE, "") == Fine(st1) && Inv(st1)
    ensures SmBegin(st1, 0, 0, 7, 0, "b", 2, FL_NONE, "") == Fine(st2) && Inv(st2)
    ensures SmEnd(st2, 0, 0, 7, "b", 0) == Fine(st3) && WrongBegin(st3)
  {
    FirstBegin("a", 1);
    st1 := SmBegin(Init(), 0, 0, 7, 0, "a", 1, FL_NONE, "").st;
    SecondBegin(st1, Id("a", 1), "b", 2);
    st2 := SmBegin(st1, 0, 0, 7, 0, "b", 2, FL_NONE, "").st;
    EndOfSecond(st2, Id("a", 1), Id("b", 2));
    st3 := SmEnd(st2, 0, 0, 7, "b", 0).st;
  }

  lemma BeginStep(st: State, sm: string, id: nat, o: Outcome)
    requires Inv(st) && SmBegin(st, 0, 0, 7, 0, sm, id, FL_NONE, "") == o
    ensures TheStep()(st, Begin(0, 0, 7, 0, sm, id, FL_NONE, "")) == o
  {
  }

  lemma EndStep(st: State, sm: string, o: Outcome)
    requires Inv(st) && SmEnd(st, 0, 0, 7, sm, 0) == o
    ensures TheStep()(st, End(0, 0, 7, 0, sm)) == o
  {
  }

  const FIRST := Begin(0, 0, 7, 0, "a", 1, FL_NONE, "")
  const SECOND := Begin(0, 0, 7, 0, "b", 2, FL_NONE, "")
  const LAST := End(0, 0, 7, 0, "b")

  lemma ThreeSteps() returns (st1: State, st2: State, st3: State)
    ensures TheStep()(Init(), FIRST) == Fine(st1) && TheStep()(st1, SECOND) == Fine(st2)
    ensures TheStep()(st2, LAST) == Fine(st3) && WrongBegin(st3)
  {
    st1, st2, st3 := ThreeCalls();
    BeginStep(Init(), "a", 1, Fine(st1));
    BeginStep(st1, "b", 2, Fine(st2));
    EndStep(st2, "b", Fine(st3));
  }

  /** A run after which the last record begins a machine that is not the one on top of the stack. */
  lemma WrongBeginRecorded()
    ensures Run([FIRST, SECOND, LAST]).Fine? && WrongBegin(Run([FIRST, SECOND, LAST]).st)
  {
    var st1, st2, st3 := ThreeSteps();
    RunsThree(TheStep(), FIRST, SECOND, LAST, st1, st2, st3);
  }
}
