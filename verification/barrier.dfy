/**
 The generation barrier of base/barrier.hh, as the steps its threads take under
 the mutex. The lock is held from entry to the first sleep or the return, and
 from each wake-up to the next sleep or the return, so those are the steps.
 */
module Barriers {

  /** The range of `unsigned`, in which `generation` wraps. */
  const WORD: nat := 0x1_0000_0000

  /** A thread outside `wait`, sleeping on the condition variable, or woken but not yet scheduled. */
  datatype Thread = Outside | Asleep(gen: nat) | Awake(gen: nat)

  datatype State = State(numWaiting: nat, generation: nat, numLeft: nat, threads: seq<Thread>)

  datatype Event =
    | Arrive(t: nat)     // enters `wait` and goes to sleep
    | Complete(t: nat)   // enters `wait` as the last one, wakes all, returns true
    | Wake(t: nat)       // a spurious wake-up
    | Doze(t: nat)       // rechecks its generation and sleeps again
    | Leave(t: nat)      // rechecks its generation and returns false

  function Init(n: nat): State {
    State(n, 0, n, seq(n, _ => Outside))
  }

  /** The counter after the decrement on entry. */
  function Decremented(s: State): nat {
    if s.numLeft == 0 then WORD - 1 else s.numLeft - 1
  }

  predicate Enabled(s: State, e: Event) {
    e.t < |s.threads| &&
    match e
    case Arrive(t) => s.threads[t].Outside? && Decremented(s) != 0
    case Complete(t) => s.threads[t].Outside? && Decremented(s) == 0
    case Wake(t) => s.threads[t].Asleep?
    case Doze(t) => s.threads[t].Awake? && s.threads[t].gen == s.generation
    case Leave(t) => s.threads[t].Awake? && s.threads[t].gen != s.generation
  }

  function Woken(ts: seq<Thread>): (r: seq<Thread>) {
    seq(|ts|, i requires 0 <= i < |ts| => if ts[i].Asleep? then Awake(ts[i].gen) else ts[i])
  }

  function Apply(s: State, e: Event): State
    requires Enabled(s, e)
  {
    match e
    case Arrive(t) => s.(numLeft := Decremented(s), threads := s.threads[t := Asleep(s.generation)])
    case Complete(t) =>
      s.(generation := (s.generation + 1) % WORD, numLeft := s.numWaiting, threads := Woken(s.threads))
    case Wake(t) => s.(threads := s.threads[t := Awake(s.threads[t].gen)])
    case Doze(t) => s.(threads := s.threads[t := Asleep(s.threads[t].gen)])
    case Leave(t) => s.(threads := s.threads[t := Outside])
  }

  // ----- runs

  datatype Outcome = Stuck | At(s: State)

  /** The state after a sequence of events, if each was enabled in its turn. */
  ghost function Run(n: nat, es: seq<Event>): Outcome {
    if es == [] then At(Init(n))
    else
      match Run(n, es[..|es| - 1])
      case Stuck => Stuck
      case At(s) => if Enabled(s, es[|es| - 1]) then At(Apply(s, es[|es| - 1])) else Stuck
  }

  ghost predicate IsRun(n: nat, es: seq<Event>) {
    Run(n, es).At?
  }

  ghost function Reached(n: nat, es: seq<Event>): State
    requires IsRun(n, es)
  {
    Run(n, es).s
  }

  // ----- what an observer counts

  ghost predicate Enters(e: Event) { e.Arrive? || e.Complete? }

  ghost predicate Returns(e: Event) { e.Complete? || e.Leave? }

  /** How many calls of `wait` thread t has begun. */
  ghost function Begun(es: seq<Event>, t: nat): nat {
    if es == [] then 0
    else Begun(es[..|es| - 1], t) + if Enters(es[|es| - 1]) && es[|es| - 1].t == t then 1 else 0
  }

  /** How many calls of `wait` thread t has finished. */
  ghost function Finished(es: seq<Event>, t: nat): nat {
    if es == [] then 0
    else Finished(es[..|es| - 1], t) + if Returns(es[|es| - 1]) && es[|es| - 1].t == t then 1 else 0
  }

  ghost function AllBegun(es: seq<Event>): nat {
    if es == [] then 0 else AllBegun(es[..|es| - 1]) + if Enters(es[|es| - 1]) then 1 else 0
  }

  /** How many calls of `wait` have returned true. */
  ghost function Rounds(es: seq<Event>): nat {
    if es == [] then 0 else Rounds(es[..|es| - 1]) + if es[|es| - 1].Complete? then 1 else 0
  }

  // ----- the invariant

  /** Thread t has begun as many calls as rounds were completed, or one more while it waits for the next. */
  ghost predicate ThreadOk(s: State, es: seq<Event>, t: nat)
    requires t < |s.threads|
  {
    var g, b, f := Rounds(es), Begun(es, t), Finished(es, t);
    match s.threads[t]
    case Outside => b == f == g
    case Asleep(gen) => b == g + 1 && f == g && gen == g % WORD
    case Awake(gen) => b == f + 1 && (b == g || b == g + 1) && gen == f % WORD
  }

  /** The threads that have arrived in the round under way. */
  ghost function Arrived(n: nat, es: seq<Event>): set<nat> {
    set t: nat | t < n && Begun(es, t) == Rounds(es) + 1
  }

  ghost predicate Inv(n: nat, es: seq<Event>, s: State) {
    && s.numWaiting == n == |s.threads|
    && 1 <= s.numLeft <= n
    && s.generation == Rounds(es) % WORD
    && (forall t: nat | t < n :: ThreadOk(s, es, t))
    && |Arrived(n, es)| == n - s.numLeft
  }

  ghost function Upto(n: nat): (r: set<nat>)
    ensures forall t: nat :: t in r <==> t < n
    ensures |r| == n
  {
    if n == 0 then {} else Upto(n - 1) + {n - 1}
  }

  lemma {:induction false} SubsetSize(a: set<nat>, b: set<nat>)
    requires a <= b
    ensures |a| <= |b|
    ensures |a| == |b| ==> a == b
  {
    if x :| x in a {
      SubsetSize(a - {x}, b - {x});
      assert a == a - {x} + {x} && b == b - {x} + {x};
    }
  }

  /** When one thread is missing, its arrival makes every thread arrived. */
  lemma LastOneCompletes(n: nat, es: seq<Event>, t: nat)
    requires t < n && t !in Arrived(n, es) && |Arrived(n, es)| == n - 1
    ensures forall u: nat | u < n && u != t :: Begun(es, u) == Rounds(es) + 1
  {
    var a := Arrived(n, es) + {t};
    SubsetSize(a, Upto(n));
    forall u: nat | u < n && u != t
      ensures Begun(es, u) == Rounds(es) + 1
    {
      assert u in Upto(n);
    }
  }

  lemma InitInv(n: nat)
    requires 1 <= n < WORD
    ensures Inv(n, [], Init(n))
  {
    assert Arrived(n, []) == {};
  }

  lemma Counts(es: seq<Event>, e: Event, t: nat)
    ensures Begun(es + [e], t) == Begun(es, t) + if Enters(e) && e.t == t then 1 else 0
    ensures Finished(es + [e], t) == Finished(es, t) + if Returns(e) && e.t == t then 1 else 0
    ensures Rounds(es + [e]) == Rounds(es) + if e.Complete? then 1 else 0
    ensures AllBegun(es + [e]) == AllBegun(es) + if Enters(e) then 1 else 0
  {
    assert (es + [e])[..|es + [e]| - 1] == es;
  }

  lemma StepKeepsThreads(n: nat, es: seq<Event>, s: State, e: Event, u: nat)
    requires 1 <= n < WORD && Inv(n, es, s) && Enabled(s, e) && u < n
    ensures ThreadOk(Apply(s, e), es + [e], u)
  {
    Counts(es, e, u);
    assert ThreadOk(s, es, u) && ThreadOk(s, es, e.t);
    if e.Complete? {
      LastOneCompletes(n, es, e.t);
    }
  }

  lemma StepKeepsArrived(n: nat, es: seq<Event>, s: State, e: Event)
    requires 1 <= n < WORD && Inv(n, es, s) && Enabled(s, e)
    ensures |Arrived(n, es + [e])| == n - Apply(s, e).numLeft
  {
    assert ThreadOk(s, es, e.t);
    forall u: nat | u < n
      ensures u in Arrived(n, es + [e]) <==>
                if e.Arrive? then u in Arrived(n, es) || u == e.t else if e.Complete? then false
                    else u in Arrived(n, es)
    {
      Counts(es, e, u);
      assert ThreadOk(s, es, u);
    }
    if e.Arrive? {
      assert Arrived(n, es + [e]) == Arrived(n, es) + {e.t};
    } else if e.Complete? {
      assert Arrived(n, es + [e]) == {};
    } else {
      assert Arrived(n, es + [e]) == Arrived(n, es);
    }
  }

  lemma StepKeepsInv(n: nat, es: seq<Event>, s: State, e: Event)
    requires 1 <= n < WORD && Inv(n, es, s) && Enabled(s, e)
    ensures Inv(n, es + [e], Apply(s, e))
  {
    Counts(es, e, 0);
    forall u: nat | u < n
      ensures ThreadOk(Apply(s, e), es + [e], u)
    {
      StepKeepsThreads(n, es, s, e, u);
    }
    StepKeepsArrived(n, es, s, e);
  }

  /** Every interleaving, with any number of spurious wake-ups, keeps the invariant. */
  lemma {:induction false} RunKeepsInv(n: nat, es: seq<Event>)
    requires 1 <= n < WORD && IsRun(n, es)
    ensures Inv(n, es, Reached(n, es))
    decreases |es|
  {
    if es == [] {
      InitInv(n);
    } else {
      var before, e := es[..|es| - 1], es[|es| - 1];
      RunKeepsInv(n, before);
      StepKeepsInv(n, before, Reached(n, before), e);
      assert before + [e] == es;
    }
  }

  // ----- what every run guarantees

  lemma {:induction false} PrefixIsRun(n: nat, es: seq<Event>, i: nat)
    requires IsRun(n, es) && i <= |es|
    ensures IsRun(n, es[..i])
    ensures i < |es| ==> Enabled(Reached(n, es[..i]), es[i])
    decreases |es|
  {
    if i < |es| {
      var before := es[..|es| - 1];
      if i < |es| - 1 {
        PrefixIsRun(n, before, i);
        assert before[..i] == es[..i];
      }
    } else {
      assert es[..i] == es;
    }
  }

  /** Every arrival is accounted for: n for each completed round, the rest in the round under way. */
  lemma {:induction false} ArrivalsAccounted(n: nat, es: seq<Event>)
    requires 1 <= n < WORD && IsRun(n, es)
    ensures AllBegun(es) == n * Rounds(es) + (n - Reached(n, es).numLeft)
    decreases |es|
  {
    if es == [] {
    } else {
      var before := es[..|es| - 1];
      ArrivalsAccounted(n, before);
      RunKeepsInv(n, before);
      if es[|es| - 1].Complete? {
        assert n * (Rounds(before) + 1) == n * Rounds(before) + n;
      }
    }
  }

  /** Nobody leaves early: when t finishes its k-th call, every thread has begun its k-th. */
  lemma NobodyLeavesEarly(n: nat, es: seq<Event>, i: nat, u: nat)
    requires 1 <= n < WORD && IsRun(n, es) && i < |es| && Returns(es[i]) && u < n
    ensures Begun(es[..i + 1], u) >= Finished(es[..i + 1], es[i].t)
  {
    var before, e := es[..i], es[i];
    PrefixIsRun(n, es, i);
    RunKeepsInv(n, before);
    var s := Reached(n, before);
    assert es[..i + 1] == before + [e];
    Counts(before, e, u);
    Counts(before, e, e.t);
    assert ThreadOk(s, before, u) && ThreadOk(s, before, e.t);
    if e.Complete? {
      LastOneCompletes(n, before, e.t);
    } else {
      TestIsExact(n, before, e.t);
    }
  }

  /**
   A thread inside `wait` holds the generation of the current round or of the
   one before, so the wrapped comparison tells exactly whether its round is over.
   */
  lemma TestIsExact(n: nat, es: seq<Event>, t: nat)
    requires 1 <= n < WORD && IsRun(n, es) && t < |Reached(n, es).threads| && !Reached(n, es).threads[t].Outside?
    ensures var s, g := Reached(n, es), Rounds(es);
            && (Begun(es, t) == g + 1 || Begun(es, t) == g)
            && s.threads[t].gen == (Begun(es, t) - 1) % WORD
            && (s.threads[t].gen == s.generation <==> Begun(es, t) == g + 1)
  {
    RunKeepsInv(n, es);
    assert ThreadOk(Reached(n, es), es, t);
    if Begun(es, t) == Rounds(es) {
      NeighboursDiffer(Rounds(es) - 1);
    }
  }

  lemma NeighboursDiffer(g: nat)
    ensures g % WORD != (g + 1) % WORD
  {
  }

  /** No wake-up is lost: a thread that sleeps waits for a round that is not over. */
  lemma SleepersAreCurrent(n: nat, es: seq<Event>, t: nat)
    requires 1 <= n < WORD && IsRun(n, es) && t < |Reached(n, es).threads| && Reached(n, es).threads[t].Asleep?
    ensures Reached(n, es).threads[t].gen == Reached(n, es).generation && Begun(es, t) == Rounds(es) + 1
  {
    RunKeepsInv(n, es);
    assert ThreadOk(Reached(n, es), es, t);
  }

  /** In every reachable state some thread can enter or leave `wait`, with no spurious wake-up needed. */
  lemma NoDeadlock(n: nat, es: seq<Event>) returns (e: Event)
    requires 1 <= n < WORD && IsRun(n, es)
    ensures Enabled(Reached(n, es), e) && (Enters(e) || Returns(e))
  {
    RunKeepsInv(n, es);
    var s := Reached(n, es);
    if Upto(n) <= Arrived(n, es) {
      SubsetSize(Upto(n), Arrived(n, es));
      assert false;
    }
    var t :| t in Upto(n) && t !in Arrived(n, es);
    assert ThreadOk(s, es, t);
    if s.threads[t].Awake? {
      TestIsExact(n, es, t);
    }
    e := if s.threads[t].Awake? then Leave(t) else if Decremented(s) == 0 then Complete(t) else Arrive(t);
  }

  lemma {:induction false} RoundsGrow(es: seq<Event>, i: nat, j: nat)
    requires i < j <= |es| && es[i].Complete?
    ensures Rounds(es[..i]) < Rounds(es[..j])
    decreases j
  {
    assert es[..j][..j - 1] == es[..j - 1] && es[..j][j - 1] == es[j - 1];
    if i == j - 1 {
    } else {
      RoundsGrow(es, i, j - 1);
    }
  }

  /** The call that completes round r is the r-th call of its thread, counting from 0. */
  lemma CompletesOwnRound(n: nat, es: seq<Event>, i: nat)
    requires 1 <= n < WORD && IsRun(n, es) && i < |es| && es[i].Complete?
    ensures Begun(es[..i], es[i].t) == Rounds(es[..i])
  {
    PrefixIsRun(n, es, i);
    RunKeepsInv(n, es[..i]);
    assert ThreadOk(Reached(n, es[..i]), es[..i], es[i].t);
  }

  lemma {:induction false} SomeoneCompletes(es: seq<Event>, r: nat) returns (i: nat)
    requires r < Rounds(es)
    ensures i < |es| && es[i].Complete? && Rounds(es[..i]) == r
    decreases |es|
  {
    var before := es[..|es| - 1];
    if r < Rounds(before) {
      i := SomeoneCompletes(before, r);
      assert before[..i] == es[..i];
    } else {
      i := |es| - 1;
    }
  }

  /** Of the n calls that make up round r, exactly one returns true. */
  lemma OneWinnerPerRound(n: nat, es: seq<Event>, r: nat) returns (i: nat)
    requires 1 <= n < WORD && IsRun(n, es) && r < Rounds(es)
    ensures i < |es| && es[i].Complete? && Begun(es[..i], es[i].t) == r
    ensures forall j: nat | j < |es| && es[j].Complete? && Begun(es[..j], es[j].t) == r :: j == i
  {
    i := SomeoneCompletes(es, r);
    CompletesOwnRound(n, es, i);
    forall j: nat | j < |es| && es[j].Complete? && Begun(es[..j], es[j].t) == r
      ensures j == i
    {
      CompletesOwnRound(n, es, j);
      if j < i {
        RoundsGrow(es, j, i);
      } else if i < j {
        RoundsGrow(es, i, j);
      }
    }
  }
}
