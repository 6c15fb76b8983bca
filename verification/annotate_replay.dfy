/** Runs of the annotator as it is written, against the runs of the model. */
module AnnotateReplay {
  import opened Basics
  import opened AnnotateNames
  import opened AnnotateTrace
  import opened AnnotateModel
  import opened AnnotateRuns
  import opened CpAnnotate

  /** One call; it fails exactly when the model's does. */
  method Execute(c: CPA, cmd: Command) returns (ok: bool)
    requires c.Valid()
    modifies c
    ensures (ok ==> c.Valid()) && c.Result(ok) == Exec(old(c.View()), cmd)
  {
    match cmd
    case Begin(now, cpu, sys, frame, sm, id, flags, state) =>
      ok := c.SwSmBegin(now, cpu, sys, frame, sm, id, flags, state);
    case End(now, cpu, sys, frame, sm) =>
      ok := EndCall(c, now, cpu, sys, frame, sm);
    case Announce(now, cpu, sys, frame, lsm, end) =>
      ok := c.SwSyscallLink(now, cpu, sys, frame, lsm, end);
    case Queue(now, cpu, sys, frame, q, count) =>
      ok := c.SwQ(now, cpu, sys, frame, q, count);
    case Dequeue(now, cpu, sys, frame, q, amount) =>
      ok := c.SwDq(now, cpu, sys, frame, q, amount);
    case Resize(now, cpu, sys, frame, q, size, flags) =>
      ok := c.SwSq(now, cpu, sys, frame, q, size, flags);
    case WriteAll =>
      c.WriteAll();
      ok := true;
  }

  /** An end in a context without machines reads the back of an empty list; the run stops there. */
  method EndCall(c: CPA, now: nat, cpu: int, sys: int, frame: nat, sm: string) returns (ok: bool)
    requires c.Valid()
    modifies c
    ensures (ok ==> c.Valid()) && c.Result(ok) == SmEnd(old(c.View()), now, cpu, sys, sm, frame)
  {
    var sysi := if sys in c.nameCache then c.nameCache[sys] else c.numSys + 1;
    KnownNumber(c, sys);
    ok := c.StackOf(StackId(sysi, frame)) != [];
    if ok {
      c.DoSwSmEnd(now, cpu, sys, sm, frame);
    }
  }

  lemma KnownNumber(c: CPA, sys: int)
    requires c.Valid()
    ensures SysNo(GetSys(c.View(), sys), sys) == if sys in c.nameCache then c.nameCache[sys] else c.numSys + 1
  {
  }

  /**
   Every list of calls on a new annotator, up to the first that fails, gives the
   state of the model's run; the pending records are those not yet written.
   */
  method Replay(cs: seq<Command>) returns (c: CPA, ok: bool)
    ensures ok == Run(cs).Fine? && c.TraceView() == TraceOf(Run(cs))
    ensures ok ==> c.Valid() && c.View() == Run(cs).st && c.data == Range(|c.written|, |c.pool|)
  {
    c := new CPA();
    ok := true;
    for i := 0 to |cs|
      invariant fresh(c) && ok == Run(cs[..i]).Fine? && c.TraceView() == TraceOf(Run(cs[..i]))
      invariant ok ==> c.Valid() && c.View() == Run(cs[..i]).st
    {
      RunMore(cs, i);
      if ok {
        ok := Execute(c, cs[i]);
      }
    }
    assert cs[..|cs|] == cs;
  }

  lemma RunMore(cs: seq<Command>, i: nat)
    requires i < |cs|
    ensures Run(cs[..i + 1]) == if Run(cs[..i]).Fine? then Exec(Run(cs[..i]).st, cs[i]) else Run(cs[..i])
  {
    assert cs[..i + 1][..i] == cs[..i];
  }
}
