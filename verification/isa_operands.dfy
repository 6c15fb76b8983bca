/**
 The operand code generator of arch/isa_parser.py. For each operand of an
 instruction it emits code for the constructor, which stores register numbers in
 slots, and code that reads and writes registers through those slots. The
 emitted code is a small syntax tree here, with an interpreter that says what it
 does; the theorems say that constructor and access code agree on the slots.
 */
module IsaOperands {
  import opened Basics

  // ----- operands

  datatype Kind = IntReg | FloatReg | CCReg | ControlReg | Memory | ProgramCounter

  /** One operand of a code block; for a part of the program counter, regSpec names the part. */
  datatype Operand = Operand(name: string, kind: Kind, regSpec: string, floating: bool, isSrc: bool, isDest: bool,
                             readPred: Option<string>, writePred: Option<string>)

  predicate IsReg(op: Operand) {
    op.kind.IntReg? || op.kind.FloatReg? || op.kind.CCReg? || op.kind.ControlReg?
  }

  predicate IsPcPart(op: Operand) {
    op.kind.ProgramCounter? && op.regSpec != ""
  }

  /** Only integer and condition-code registers take predicates; other registers ignore them. */
  predicate TakesPredicates(op: Operand) {
    op.kind.IntReg? || op.kind.CCReg?
  }

  /** An integer, condition-code or control register used with a floating-point type. */
  predicate Misused(op: Operand) {
    (op.isSrc || op.isDest) && op.floating && (op.kind.IntReg? || op.kind.CCReg? || op.kind.ControlReg?)
  }

  // ----- emitted code

  /** A slot: a number fixed when the code is generated, or the next one at run time. */
  datatype Slot = Fixed(n: nat) | Next

  datatype Instr =
    | StoreSrc(reg: string, bank: Kind)
    | StoreDest(reg: string, bank: Kind)
    | CountDest(bank: Kind)
    | Read(to: string, bank: Kind, slot: Slot)
    | Zero(to: string)
    | Write(bank: Kind, slot: Slot, from: string)
    | FetchPc
    | CommitPc
    | ReadPart(to: string, part: string)
    | WritePart(part: string, from: string)
    | ReadPc(to: string)
    | WritePc(from: string)

  datatype Code =
    | Skip
    | Do(instr: Instr)
    | If(cond: string, body: Code, otherwise: Code)
    | Then(first: Code, rest: Code)

  /** A block under a condition, or without one. */
  function Guarded(pred: Option<string>, body: Code): Code {
    if pred.Some? then If(pred.value, body, Skip) else body
  }

  function MakeConstructor(op: Operand): Code {
    Then(MakeSrcStore(op), MakeDestStore(op))
  }

  function MakeSrcStore(op: Operand): Code {
    if !IsReg(op) || !op.isSrc then Skip
    else Guarded(if TakesPredicates(op) then op.readPred else None, Do(StoreSrc(op.regSpec, op.kind)))
  }

  function MakeDestStore(op: Operand): Code {
    if !IsReg(op) || !op.isDest then Skip
    else
      Guarded(if TakesPredicates(op) then op.writePred else None,
              Then(Do(StoreDest(op.regSpec, op.kind)), if op.kind.ControlReg? then Skip else Do(CountDest(op.kind))))
  }

  function MakeRead(op: Operand, index: nat, predRead: bool): Code {
    if op.kind.Memory? then Skip
    else if op.kind.ProgramCounter? then Do(if op.regSpec != "" then ReadPart(op.name, op.regSpec) else ReadPc(op.name))
    else if !predRead then Do(Read(op.name, op.kind, Fixed(index)))
    else if TakesPredicates(op) && op.readPred.Some? then
      If(op.readPred.value, Do(Read(op.name, op.kind, Next)), Do(Zero(op.name)))
    else Do(Read(op.name, op.kind, Next))
  }

  function MakeWrite(op: Operand, index: nat, predWrite: bool): Code {
    if op.kind.Memory? then Skip
    else if op.kind.ProgramCounter? then Do(if op.regSpec != "" then WritePart(op.regSpec, op.name)
        else WritePc(op.name))
    else if !predWrite then Do(Write(op.kind, Fixed(index), op.name))
    else Guarded(if TakesPredicates(op) then op.writePred else None, Do(Write(op.kind, Next, op.name)))
  }

  // ----- running emitted code

  /** What the emitted expressions stand for: predicates, register numbers, and where each register bank starts. */
  datatype Env = Env(holds: string -> bool, value: string -> int, base: Kind -> int)

  function Base(env: Env, bank: Kind): int {
    if bank.IntReg? then 0 else env.base(bank)
  }

  type PcState = map<string, int>

  /** What the constructor fills in. */
  datatype Slots = Slots(src: seq<int>, dest: seq<int>, intDests: nat, fpDests: nat, ccDests: nat)

  /** The variables of the emitted code, the registers and the program counter. */
  datatype World = World(vars: map<string, int>, regs: map<(Kind, int), int>, pc: PcState, autoPc: PcState,
                         pcVars: map<string, PcState>)

  /** A machine, with its run-time counters and the slots used so far. */
  datatype Machine = Machine(slots: Slots, world: World, sourceIndex: nat, destIndex: nat, readLog: seq<nat>,
                             writeLog: seq<nat>)

  /** Variables start at 0, and so does every register here. */
  function At<K>(m: map<K, int>, k: K): int {
    if k in m then m[k] else 0
  }

  /** The run-time counters of the access code have 8 bits. */
  const WRAP: nat := 256

  /** The counters of stored registers are signed 8-bit numbers: after 128 stores the next index is negative. */
  const ROOM: nat := 128

  /** One instruction; None when it uses a slot the constructor has not filled, or stores outside the slots. */
  function Step(i: Instr, env: Env, m: Machine): Option<Machine> {
    match i
    case StoreSrc(reg, bank) =>
      if |m.slots.src| >= ROOM then None
      else Some(m.(slots := m.slots.(src := m.slots.src + [env.value(reg) + Base(env, bank)])))
    case StoreDest(reg, bank) =>
      if |m.slots.dest| >= ROOM then None
      else Some(m.(slots := m.slots.(dest := m.slots.dest + [env.value(reg) + Base(env, bank)])))
    case CountDest(bank) => Some(m.(slots := Counted(m.slots, bank)))
    case Read(to, bank, slot) =>
      var k := if slot.Next? then m.sourceIndex else slot.n;
      if k >= |m.slots.src| then None
      else
        var v := At(m.world.regs, (bank, m.slots.src[k] - Base(env, bank)));
        Some(m.(world := SetVar(m.world, to, v), sourceIndex := if slot.Next? then (k + 1) % WRAP else m.sourceIndex,
                readLog := m.readLog + [k]))
    case Write(bank, slot, from) =>
      var k := if slot.Next? then m.destIndex else slot.n;
      if k >= |m.slots.dest| then None
      else
        var w := SetReg(m.world, (bank, m.slots.dest[k] - Base(env, bank)), At(m.world.vars, from));
        Some(m.(world := w, destIndex := if slot.Next? then (k + 1) % WRAP
            else m.destIndex, writeLog := m.writeLog + [k]))
    case _ => Some(m.(world := Elsewhere(i, m.world)))
  }

  function Counted(s: Slots, bank: Kind): Slots {
    match bank
    case IntReg => s.(intDests := s.intDests + 1)
    case FloatReg => s.(fpDests := s.fpDests + 1)
    case CCReg => s.(ccDests := s.ccDests + 1)
    case _ => s
  }

  function SetVar(w: World, x: string, v: int): World {
    w.(vars := w.vars[x := v])
  }

  function SetReg(w: World, reg: (Kind, int), v: int): World {
    w.(regs := w.regs[reg := v])
  }

  /** The instructions that use no slots. */
  function Elsewhere(i: Instr, w: World): World {
    match i
    case Zero(to) => SetVar(w, to, 0)
    case FetchPc => w.(autoPc := w.pc)
    case CommitPc => w.(pc := w.autoPc)
    case ReadPart(to, part) => SetVar(w, to, At(w.autoPc, part))
    case WritePart(part, from) => w.(autoPc := w.autoPc[part := At(w.vars, from)])
    case ReadPc(to) => w.(pcVars := w.pcVars[to := w.pc])
    case WritePc(from) => w.(pc := if from in w.pcVars then w.pcVars[from] else map[])
    case _ => w
  }

  function Run(code: Code, env: Env, m: Machine): Option<Machine> {
    match code
    case Skip => Some(m)
    case Do(i) => Step(i, env, m)
    case If(p, body, otherwise) => if env.holds(p) then Run(body, env, m) else Run(otherwise, env, m)
    case Then(first, rest) =>
      var r := Run(first, env, m);
      if r.None? then None else Run(rest, env, r.value)
  }

  // ----- what an instruction means, without slots

  predicate Holds(p: Option<string>, env: Env) {
    p.None? || env.holds(p.value)
  }

  /** Whether the constructor stores a source (destination) register for the operand. */
  predicate ReadsReg(op: Operand, env: Env) {
    IsReg(op) && op.isSrc && (TakesPredicates(op) ==> Holds(op.readPred, env))
  }

  predicate WritesReg(op: Operand, env: Env) {
    IsReg(op) && op.isDest && (TakesPredicates(op) ==> Holds(op.writePred, env))
  }

  /** The register an operand names. */
  function RegOf(op: Operand, env: Env): (Kind, int) {
    (op.kind, env.value(op.regSpec))
  }

  /** What reading one operand does to the variables. */
  function Load(op: Operand, env: Env, w: World): World {
    if !op.isSrc || op.kind.Memory? then w
    else if IsPcPart(op) then SetVar(w, op.name, At(w.autoPc, op.regSpec))
    else if op.kind.ProgramCounter? then w.(pcVars := w.pcVars[op.name := w.pc])
    else SetVar(w, op.name, if ReadsReg(op, env) then At(w.regs, RegOf(op, env)) else 0)
  }

  function Loads(ops: seq<Operand>, i: nat, env: Env, w: World): World
    requires i <= |ops|
    decreases |ops| - i
  {
    if i == |ops| then w else Loads(ops, i + 1, env, Load(ops[i], env, w))
  }

  /** The registers after every destination operand has been written, in order. */
  function Stores(ops: seq<Operand>, i: nat, env: Env, vars: map<string, int>,
                  regs: map<(Kind, int), int>): map<(Kind, int), int>
    requires i <= |ops|
    decreases |ops| - i
  {
    if i == |ops| then regs
    else if WritesReg(ops[i], env) then Stores(ops, i + 1, env, vars, regs[RegOf(ops[i], env) := At(vars, ops[i].name)])
    else Stores(ops, i + 1, env, vars, regs)
  }

  /** The source (destination) registers the constructor stores for the first i operands. */
  function SrcSlots(ops: seq<Operand>, i: nat, env: Env): seq<int>
    requires i <= |ops|
  {
    if i == 0 then []
    else SrcSlots(ops, i - 1, env) +
         if ReadsReg(ops[i - 1], env) then [env.value(ops[i - 1].regSpec) + Base(env, ops[i - 1].kind)] else []
  }

  function DestSlots(ops: seq<Operand>, i: nat, env: Env): seq<int>
    requires i <= |ops|
  {
    if i == 0 then []
    else DestSlots(ops, i - 1, env) +
         if WritesReg(ops[i - 1], env) then [env.value(ops[i - 1].regSpec) + Base(env, ops[i - 1].kind)] else []
  }

  /** How many of the first i operands write a register of a bank. */
  function Writers(ops: seq<Operand>, i: nat, env: Env, bank: Kind): nat
    requires i <= |ops|
  {
    if i == 0 then 0
    else Writers(ops, i - 1, env, bank) + if WritesReg(ops[i - 1], env) && ops[i - 1].kind == bank then 1 else 0
  }

  lemma {:induction false} SlotsGrow(ops: seq<Operand>, i: nat, env: Env)
    requires i <= |ops|
    ensures SrcSlots(ops, i, env) <= SrcSlots(ops, |ops|, env) && DestSlots(ops, i, env) <= DestSlots(ops, |ops|, env)
    decreases |ops| - i
  {
    if i == |ops| {
    } else {
      SlotsGrow(ops, i + 1, env);
    }
  }

  // ----- numbering

  /** How many source (destination) registers there are among the first i operands. */
  function SrcRegs(ops: seq<Operand>, i: nat): nat
    requires i <= |ops|
  {
    if i == 0 then 0 else SrcRegs(ops, i - 1) + if IsReg(ops[i - 1]) && ops[i - 1].isSrc then 1 else 0
  }

  function DestRegs(ops: seq<Operand>, i: nat): nat
    requires i <= |ops|
  {
    if i == 0 then 0 else DestRegs(ops, i - 1) + if IsReg(ops[i - 1]) && ops[i - 1].isDest then 1 else 0
  }

  predicate PredRead(ops: seq<Operand>) {
    exists op :: op in ops && op.readPred.Some?
  }

  predicate PredWrite(ops: seq<Operand>) {
    exists op :: op in ops && op.writePred.Some?
  }

  /** Without predicates, an operand's number is its slot. */
  lemma {:induction false} StaticNumbersAreSlots(ops: seq<Operand>, i: nat, env: Env)
    requires i <= |ops|
    ensures !PredRead(ops) ==> SrcRegs(ops, i) == |SrcSlots(ops, i, env)|
    ensures !PredWrite(ops) ==> DestRegs(ops, i) == |DestSlots(ops, i, env)|
  {
    if i == 0 {
    } else {
      StaticNumbersAreSlots(ops, i - 1, env);
      assert ops[i - 1] in ops;
    }
  }

  // ----- the constructor

  function Constructors(ops: seq<Operand>, i: nat): Code
    requires i <= |ops|
  {
    if i == 0 then Skip else Then(Constructors(ops, i - 1), MakeConstructor(ops[i - 1]))
  }

  /** What one operand's constructor code adds. */
  function Extended(op: Operand, env: Env, s: Slots): Slots {
    var reg := env.value(op.regSpec) + Base(env, op.kind);
    Slots(s.src + if ReadsReg(op, env) then [reg] else [],
          s.dest + if WritesReg(op, env) then [reg] else [],
          s.intDests + if WritesReg(op, env) && op.kind.IntReg? then 1 else 0,
          s.fpDests + if WritesReg(op, env) && op.kind.FloatReg? then 1 else 0,
          s.ccDests + if WritesReg(op, env) && op.kind.CCReg? then 1 else 0)
  }

  /** The registers stored fit the slots. */
  predicate Fit(s: Slots) {
    |s.src| <= ROOM && |s.dest| <= ROOM
  }

  /** One operand's constructor code stores its registers, if there is room for them. */
  lemma ConstructorStep(op: Operand, env: Env, m: Machine)
    requires Fit(m.slots)
    ensures var s := Extended(op, env, m.slots);
            Run(MakeConstructor(op), env, m) == if Fit(s) then Some(m.(slots := s)) else None
  {
    var m1 := m.(slots := m.slots.(src := Extended(op, env, m.slots).src));
    assert m.slots.src + [] == m.slots.src;
    assert Run(MakeSrcStore(op), env, m) == if Fit(m1.slots) then Some(m1) else None;
    if Fit(m1.slots) {
      DestStoreStep(op, env, m1);
    }
  }

  lemma DestStoreStep(op: Operand, env: Env, m: Machine)
    requires Fit(m.slots)
    ensures var s := Extended(op, env, m.slots).(src := m.slots.src);
            Run(MakeDestStore(op), env, m) == if Fit(s) then Some(m.(slots := s)) else None
  {
    assert m.slots.dest + [] == m.slots.dest;
    if IsReg(op) && op.isDest {
      var m1 := m.(slots := m.slots.(dest := m.slots.dest + [env.value(op.regSpec) + Base(env, op.kind)]));
      var count := if op.kind.ControlReg? then Skip else Do(CountDest(op.kind));
      var store := Do(StoreDest(op.regSpec, op.kind));
      assert Run(store, env, m) == if |m.slots.dest| < ROOM then Some(m1) else None;
      assert Run(Then(store, count), env, m) == if |m.slots.dest| < ROOM then Run(count, env, m1) else None;
    }
  }

  /** Integer registers are numbered from 0 and the other banks from their bases, with no overlap. */
  ghost predicate BanksApart(env: Env, sizes: Kind -> nat) {
    forall a: Kind, b: Kind | a != b ::
      var p, q := if a.IntReg? then 0 else env.base(a), if b.IntReg? then 0 else env.base(b);
      p + sizes(a) <= q || q + sizes(b) <= p
  }

  /** The numbers that are stored tell registers apart: operands with the same number name the same register. */
  lemma StoredNumbersTellApart(x: Operand, y: Operand, env: Env, sizes: Kind -> nat, s: Slots)
    requires BanksApart(env, sizes) && ReadsReg(x, env) && ReadsReg(y, env)
    requires 0 <= env.value(x.regSpec) < sizes(x.kind) && 0 <= env.value(y.regSpec) < sizes(y.kind)
    ensures Extended(x, env, s).src == Extended(y, env, s).src ==> RegOf(x, env) == RegOf(y, env)
  {
    if Extended(x, env, s).src == Extended(y, env, s).src {
      assert Extended(x, env, s).src[|s.src|] == Extended(y, env, s).src[|s.src|];
    }
  }

  /** The slots of the first i operands. */
  function Filled(ops: seq<Operand>, i: nat, env: Env): Slots
    requires i <= |ops|
  {
    Slots(SrcSlots(ops, i, env), DestSlots(ops, i, env), Writers(ops, i, env, IntReg), Writers(ops, i, env, FloatReg),
          Writers(ops, i, env, CCReg))
  }

  /**
   The constructor stores, in order, the registers of the operands whose
   predicates hold, and counts them by bank; it breaks down exactly when more
   than 128 sources or destinations are to be stored.
   */
  lemma {:induction false} ConstructorsStore(ops: seq<Operand>, i: nat, env: Env, m: Machine)
    requires i <= |ops| && m.slots == Slots([], [], 0, 0, 0)
    ensures var s := Filled(ops, i, env);
            Run(Constructors(ops, i), env, m) == if Fit(s) then Some(m.(slots := s)) else None
  {
    if i == 0 {
    } else {
      ConstructorsStore(ops, i - 1, env, m);
      var m1 := m.(slots := Filled(ops, i - 1, env));
      if Fit(m1.slots) {
        ConstructorStep(ops[i - 1], env, m1);
      }
    }
  }

  // ----- reading

  /** The slots n accesses use, one after the other: the run-time counters have 8 bits. */
  function SlotsUsed(n: nat, dynamic: bool): (s: seq<nat>)
    ensures |s| == n && forall k | 0 <= k < n :: s[k] == if dynamic then k % WRAP else k
  {
    if n == 0 then [] else SlotsUsed(n - 1, dynamic) + [if dynamic then (n - 1) % WRAP else n - 1]
  }

  /** As long as the slots have room, the run-time counters do not wrap. */
  lemma {:induction false} SlotsAreOwn(n: nat, dynamic: bool)
    requires n <= ROOM
    ensures SlotsUsed(n, dynamic) == SlotsUsed(n, false)
  {
    if n == 0 {
    } else {
      SlotsAreOwn(n - 1, dynamic);
    }
  }

  function ReadOf(ops: seq<Operand>, i: nat): Code
    requires i < |ops|
  {
    if ops[i].isSrc then MakeRead(ops[i], SrcRegs(ops, i), PredRead(ops)) else Skip
  }

  function ReadCode(ops: seq<Operand>, i: nat): Code
    requires i <= |ops|
    decreases |ops| - i
  {
    if i == |ops| then Skip else Then(ReadOf(ops, i), ReadCode(ops, i + 1))
  }

  /** The machine between the reads of operands i - 1 and i. */
  predicate AtRead(ops: seq<Operand>, i: nat, env: Env, m: Machine)
    requires i <= |ops|
  {
    var n := |SrcSlots(ops, i, env)|;
    && m.slots.src == SrcSlots(ops, |ops|, env)
    && (PredRead(ops) ==> m.sourceIndex == n % WRAP)
    && m.readLog == SlotsUsed(n, PredRead(ops))
  }

  /** The slot the next read uses is filled, and is the operand's own unless the counter has wrapped. */
  lemma NextSlot(ops: seq<Operand>, i: nat, env: Env, m: Machine)
    requires i < |ops| && AtRead(ops, i, env, m) && ReadsReg(ops[i], env)
    ensures var n := |SrcSlots(ops, i, env)|;
            && n < |m.slots.src| && m.slots.src[n] == env.value(ops[i].regSpec) + Base(env, ops[i].kind)
            && |SrcSlots(ops, i + 1, env)| == n + 1
            && (!PredRead(ops) ==> SrcRegs(ops, i) == n)
  {
    SlotsGrow(ops, i + 1, env);
    StaticNumbersAreSlots(ops, i, env);
  }

  lemma ReadTaken(ops: seq<Operand>, i: nat, env: Env, m: Machine)
    requires i < |ops| && AtRead(ops, i, env, m) && ReadsReg(ops[i], env)
    ensures var r := Run(ReadOf(ops, i), env, m);
            && r.Some? && AtRead(ops, i + 1, env, r.value)
            && (!PredRead(ops) || |m.slots.src| <= WRAP ==> r.value.world == Load(ops[i], env, m.world))
  {
    NextSlot(ops, i, env, m);
    ReadIsStep(ops, i, env, m);
    Wrapped(|SrcSlots(ops, i, env)|);
  }

  lemma ReadIsStep(ops: seq<Operand>, i: nat, env: Env, m: Machine)
    requires i < |ops| && ReadsReg(ops[i], env)
    ensures var slot := if PredRead(ops) then Next else Fixed(SrcRegs(ops, i));
            Run(ReadOf(ops, i), env, m) == Step(Read(ops[i].name, ops[i].kind, slot), env, m)
  {
  }

  lemma Wrapped(n: nat)
    ensures n % WRAP <= n && (n % WRAP + 1) % WRAP == (n + 1) % WRAP && (n < WRAP ==> n % WRAP == n)
  {
  }

  lemma ReadSkipped(ops: seq<Operand>, i: nat, env: Env, m: Machine)
    requires i < |ops| && AtRead(ops, i, env, m) && !ReadsReg(ops[i], env)
    ensures Run(ReadOf(ops, i), env, m) == Some(m.(world := Load(ops[i], env, m.world)))
    ensures AtRead(ops, i + 1, env, m.(world := Load(ops[i], env, m.world)))
  {
    assert ops[i] in ops;
  }

  lemma {:induction false} ReadsFrom(ops: seq<Operand>, i: nat, env: Env, m: Machine)
    requires i <= |ops| && AtRead(ops, i, env, m)
    ensures var r := Run(ReadCode(ops, i), env, m);
            && r.Some? && AtRead(ops, |ops|, env, r.value)
            && (!PredRead(ops) || |m.slots.src| <= WRAP ==> r.value.world == Loads(ops, i, env, m.world))
    decreases |ops| - i
  {
    if i == |ops| {
    } else {
      if ReadsReg(ops[i], env) {
        ReadTaken(ops, i, env, m);
      } else {
        ReadSkipped(ops, i, env, m);
      }
      var m1 := Run(ReadOf(ops, i), env, m).value;
      ReadsFrom(ops, i + 1, env, m1);
    }
  }

  /** The program counter is fetched first when parts of it are used. */
  function Fetch(ops: seq<Operand>): Code {
    if exists op :: op in ops && IsPcPart(op) then Do(FetchPc) else Skip
  }

  function ReadSection(ops: seq<Operand>): Code {
    Then(Fetch(ops), ReadCode(ops, 0))
  }

  /** A machine before the constructor has run. */
  predicate Fresh(m: Machine) {
    && m.slots == Slots([], [], 0, 0, 0)
    && m.sourceIndex == m.destIndex == 0 && m.readLog == [] && m.writeLog == []
  }

  /** What the read code starts from: the program counter is fetched when parts of it are used. */
  ghost function Fetched(ops: seq<Operand>, w: World): World {
    if exists op :: op in ops && IsPcPart(op) then w.(autoPc := w.pc) else w
  }

  /**
   Constructor and read code run through; the k-th access uses slot k, and every
   source variable holds its own register's value, or 0 when its predicate is
   false.
   */
  ghost predicate ReadsRight(rd: Code, ops: seq<Operand>, env: Env, m: Machine) {
    var c := Run(Constructors(ops, |ops|), env, m);
    c.Some? &&
    var r := Run(rd, env, c.value);
    && r.Some? && r.value.readLog == SlotsUsed(|SrcSlots(ops, |ops|, env)|, false)
    && r.value.world == Loads(ops, 0, env, Fetched(ops, m.world))
  }

  /**
   For every operand list and truth assignment, under static and run-time
   numbering alike, the reads agree with the constructor exactly when no more
   than 128 sources and 128 destinations are stored.
   */
  lemma ReadsAgreeIff(ops: seq<Operand>, env: Env, m: Machine)
    requires Fresh(m)
    ensures ReadsRight(ReadSection(ops), ops, env, m) <==> Fit(Filled(ops, |ops|, env))
  {
    ConstructorsStore(ops, |ops|, env, m);
    if Fit(Filled(ops, |ops|, env)) {
      ReadsOf(ops, env, m.(slots := Filled(ops, |ops|, env)));
    }
  }

  lemma ReadsOf(ops: seq<Operand>, env: Env, m: Machine)
    requires m.slots == Filled(ops, |ops|, env) && Fit(m.slots) && m.sourceIndex == 0 && m.readLog == []
    ensures var r := Run(ReadSection(ops), env, m);
            && r.Some? && r.value.readLog == SlotsUsed(|SrcSlots(ops, |ops|, env)|, false)
            && r.value.world == Loads(ops, 0, env, Fetched(ops, m.world))
  {
    var m1 := m.(world := Fetched(ops, m.world));
    assert Run(Fetch(ops), env, m) == Some(m1);
    ReadsFrom(ops, 0, env, m1);
    SlotsAreOwn(|SrcSlots(ops, |ops|, env)|, PredRead(ops));
  }

  // ----- writing back

  function WriteOf(ops: seq<Operand>, i: nat): Code
    requires i < |ops|
  {
    if ops[i].isDest then MakeWrite(ops[i], DestRegs(ops, i), PredWrite(ops)) else Skip
  }

  predicate PartDest(op: Operand) {
    IsPcPart(op) && op.isDest
  }

  /** Whether a part of the program counter is written by operand i or a later one. */
  predicate AnyPartFrom(ops: seq<Operand>, i: nat)
    requires i <= |ops|
    decreases |ops| - i
  {
    i < |ops| && (PartDest(ops[i]) || AnyPartFrom(ops, i + 1))
  }

  /** The write-back code in operand order, the program counter being put back right after its last part. */
  function WriteCode(ops: seq<Operand>, i: nat): Code
    requires i <= |ops|
    decreases |ops| - i
  {
    if i == |ops| then Skip
    else if PartDest(ops[i]) && !AnyPartFrom(ops, i + 1) then
      Then(WriteOf(ops, i), Then(Do(CommitPc), WriteCode(ops, i + 1)))
    else Then(WriteOf(ops, i), WriteCode(ops, i + 1))
  }

  /** The machine between the writes of operands i - 1 and i. */
  predicate AtWrite(ops: seq<Operand>, i: nat, env: Env, m: Machine)
    requires i <= |ops|
  {
    var n := |DestSlots(ops, i, env)|;
    && m.slots.dest == DestSlots(ops, |ops|, env)
    && (PredWrite(ops) ==> m.destIndex == n % WRAP)
    && m.writeLog == SlotsUsed(n, PredWrite(ops))
  }

  lemma NextDest(ops: seq<Operand>, i: nat, env: Env, m: Machine)
    requires i < |ops| && AtWrite(ops, i, env, m) && WritesReg(ops[i], env)
    ensures var n := |DestSlots(ops, i, env)|;
            && n < |m.slots.dest| && m.slots.dest[n] == env.value(ops[i].regSpec) + Base(env, ops[i].kind)
            && |DestSlots(ops, i + 1, env)| == n + 1
            && (!PredWrite(ops) ==> DestRegs(ops, i) == n)
  {
    SlotsGrow(ops, i + 1, env);
    StaticNumbersAreSlots(ops, i, env);
  }

  /** What the write of one operand leaves alone and what it does to the registers. */
  predicate Wrote(op: Operand, env: Env, m: World, r: World) {
    && r.vars == m.vars && r.pcVars == m.pcVars
    && r.regs == (if WritesReg(op, env) then m.regs[RegOf(op, env) := At(m.vars, op.name)] else m.regs)
    && (op.kind.ProgramCounter? || (r.pc == m.pc && r.autoPc == m.autoPc))
  }

  lemma WriteTaken(ops: seq<Operand>, i: nat, env: Env, m: Machine)
    requires i < |ops| && AtWrite(ops, i, env, m) && WritesReg(ops[i], env)
    ensures var r := Run(WriteOf(ops, i), env, m);
            && r.Some? && AtWrite(ops, i + 1, env, r.value) && r.value.world.vars == m.world.vars
            && r.value.world.pc == m.world.pc && r.value.world.autoPc == m.world.autoPc
            && (!PredWrite(ops) || |m.slots.dest| <= WRAP ==> Wrote(ops[i], env, m.world, r.value.world))
  {
    NextDest(ops, i, env, m);
    WriteIsStep(ops, i, env, m);
    Wrapped(|DestSlots(ops, i, env)|);
  }

  lemma WriteIsStep(ops: seq<Operand>, i: nat, env: Env, m: Machine)
    requires i < |ops| && WritesReg(ops[i], env)
    ensures var slot := if PredWrite(ops) then Next else Fixed(DestRegs(ops, i));
            Run(WriteOf(ops, i), env, m) == Step(Write(ops[i].kind, slot, ops[i].name), env, m)
  {
  }

  lemma WriteSkipped(ops: seq<Operand>, i: nat, env: Env, m: Machine)
    requires i < |ops| && AtWrite(ops, i, env, m) && !WritesReg(ops[i], env)
    ensures var r := Run(WriteOf(ops, i), env, m);
            && r.Some? && AtWrite(ops, i + 1, env, r.value) && Wrote(ops[i], env, m.world, r.value.world)
            && (PartDest(ops[i]) ==>
                   r.value.world.autoPc
                   == m.world.autoPc[ops[i].regSpec := At(m.world.vars, ops[i].name)])
            && (IsPcPart(ops[i]) ==>
                   && r.value.world.pc == m.world.pc
                   && (!ops[i].isDest ==> r.value.world.autoPc == m.world.autoPc))
  {
    assert ops[i] in ops;
  }

  /** The write of operand i, the commit that may follow it, and the rest. */
  lemma WriteThenRest(ops: seq<Operand>, i: nat, env: Env, m: Machine, m1: Machine)
    requires i < |ops| && Run(WriteOf(ops, i), env, m) == Some(m1)
    ensures var last := PartDest(ops[i]) && !AnyPartFrom(ops, i + 1);
            var m2 := if last then m1.(world := m1.world.(pc := m1.world.autoPc)) else m1;
            Run(WriteCode(ops, i), env, m) == Run(WriteCode(ops, i + 1), env, m2)
  {
    var rest := WriteCode(ops, i + 1);
    var m2 := m1.(world := m1.world.(pc := m1.world.autoPc));
    assert Run(Do(CommitPc), env, m1) == Some(m2);
    assert Run(Then(Do(CommitPc), rest), env, m1) == Run(rest, env, m2);
  }

  lemma {:induction false} WritesFrom(ops: seq<Operand>, i: nat, env: Env, m: Machine)
    requires i <= |ops| && AtWrite(ops, i, env, m)
    ensures var r := Run(WriteCode(ops, i), env, m);
            && r.Some? && AtWrite(ops, |ops|, env, r.value) && r.value.world.vars == m.world.vars
            && (!PredWrite(ops) || |m.slots.dest| <= WRAP
               ==> r.value.world.regs == Stores(ops, i, env, m.world.vars, m.world.regs))
    decreases |ops| - i
  {
    if i == |ops| {
    } else {
      if WritesReg(ops[i], env) {
        WriteTaken(ops, i, env, m);
      } else {
        WriteSkipped(ops, i, env, m);
      }
      var m1 := Run(WriteOf(ops, i), env, m).value;
      WriteThenRest(ops, i, env, m, m1);
      if PartDest(ops[i]) && !AnyPartFrom(ops, i + 1) {
        WritesFrom(ops, i + 1, env, m1.(world := m1.world.(pc := m1.world.autoPc)));
      } else {
        WritesFrom(ops, i + 1, env, m1);
      }
    }
  }

  /** Constructor and write code run through; the k-th access uses slot k and sets the register of its own operand. */
  ghost predicate WritesRight(ops: seq<Operand>, env: Env, m: Machine, vars: map<string, int>) {
    var c := Run(Constructors(ops, |ops|), env, m);
    c.Some? &&
    var r := Run(WriteCode(ops, 0), env, c.value.(world := m.world.(vars := vars)));
    && r.Some? && r.value.writeLog == SlotsUsed(|DestSlots(ops, |ops|, env)|, false)
    && r.value.world.regs == Stores(ops, 0, env, vars, m.world.regs)
  }

  /** The writes agree with the constructor under the same condition. */
  lemma WritesAgreeIff(ops: seq<Operand>, env: Env, m: Machine, vars: map<string, int>)
    requires Fresh(m)
    ensures WritesRight(ops, env, m, vars) <==> Fit(Filled(ops, |ops|, env))
  {
    ConstructorsStore(ops, |ops|, env, m);
    if Fit(Filled(ops, |ops|, env)) {
      WritesFrom(ops, 0, env, m.(slots := Filled(ops, |ops|, env), world := m.world.(vars := vars)));
      SlotsAreOwn(|DestSlots(ops, |ops|, env)|, PredWrite(ops));
    }
  }

  /** n integer sources without predicates. */
  function Many(n: nat): (ops: seq<Operand>)
    ensures |ops| == n && forall i | 0 <= i < n :: ops[i] == Operand("x", IntReg, "r", false, true, false, None, None)
  {
    if n == 0 then [] else Many(n - 1) + [Operand("x", IntReg, "r", false, true, false, None, None)]
  }

  lemma {:induction false} ManySlots(n: nat, i: nat, env: Env)
    requires i <= n
    ensures |SrcSlots(Many(n), i, env)| == i
  {
    if i == 0 {
    } else {
      ManySlots(n, i - 1, env);
    }
  }

  /** With 129 sources and static numbering the condition fails, and with it the agreement. */
  lemma TooManySources(env: Env, m: Machine)
    requires Fresh(m)
    ensures !PredRead(Many(129)) && !ReadsRight(ReadSection(Many(129)), Many(129), env, m)
  {
    ManySlots(129, 129, env);
    ReadsAgreeIff(Many(129), env, m);
  }

  /** The program counter with the parts written by operand i and later ones. */
  function PartsSet(ops: seq<Operand>, i: nat, vars: map<string, int>, pc: PcState): PcState
    requires i <= |ops|
    decreases |ops| - i
  {
    if i == |ops| then pc
    else PartsSet(ops, i + 1, vars, if PartDest(ops[i]) then pc[ops[i].regSpec := At(vars, ops[i].name)] else pc)
  }

  lemma {:induction false} NoPartsLeft(ops: seq<Operand>, i: nat, vars: map<string, int>, pc: PcState)
    requires i <= |ops| && !AnyPartFrom(ops, i)
    ensures PartsSet(ops, i, vars, pc) == pc
    decreases |ops| - i
  {
    if i == |ops| {
    } else {
      NoPartsLeft(ops, i + 1, vars, pc);
    }
  }

  /** Where parts of the program counter are written, it is put back once, with all of them. */
  lemma {:induction false} EveryPartIsPutBack(ops: seq<Operand>, i: nat, env: Env, m: Machine)
    requires i <= |ops| && AtWrite(ops, i, env, m)
    requires forall op | op in ops && op.kind.ProgramCounter? :: IsPcPart(op)
    ensures var r := Run(WriteCode(ops, i), env, m);
            r.Some? && r.value.world.pc == if AnyPartFrom(ops, i)
                then PartsSet(ops, i, m.world.vars, m.world.autoPc) else m.world.pc
    decreases |ops| - i
  {
    if i == |ops| {
    } else {
      assert ops[i] in ops;
      if WritesReg(ops[i], env) {
        WriteTaken(ops, i, env, m);
      } else {
        WriteSkipped(ops, i, env, m);
      }
      var m1 := Run(WriteOf(ops, i), env, m).value;
      WriteThenRest(ops, i, env, m, m1);
      if PartDest(ops[i]) && !AnyPartFrom(ops, i + 1) {
        NoPartsLeft(ops, i + 1, m.world.vars, m1.world.autoPc);
        EveryPartIsPutBack(ops, i + 1, env, m1.(world := m1.world.(pc := m1.world.autoPc)));
      } else {
        EveryPartIsPutBack(ops, i + 1, env, m1);
      }
    }
  }

  // ----- descriptors and their list

  /** An operand with what the generator works out for it. */
  class OpDesc {
    const op: Operand
    var srcRegIdx: nat
    var destRegIdx: nat
    var construct: Code
    var opRd: Code
    var opWb: Code

    constructor (op: Operand)
      ensures this.op == op
    {
      this.op := op;
      srcRegIdx, destRegIdx := 0, 0;
      construct, opRd, opWb := Skip, Skip, Skip;
    }

    /** Makes the operand's code once its numbers are known; fails when the register cannot hold its type. */
    method Finalize(predRead: bool, predWrite: bool) returns (ok: bool)
      modifies this`construct, this`opRd, this`opWb
      ensures ok == !Misused(op)
      ensures ok ==> construct == MakeConstructor(op)
      ensures ok ==> opRd == if op.isSrc then MakeRead(op, srcRegIdx, predRead) else Skip
      ensures ok ==> opWb == if op.isDest then MakeWrite(op, destRegIdx, predWrite) else Skip
    {
      construct := MakeConstructor(op);
      if Misused(op) {
        return false;
      }
      opRd := if op.isSrc then MakeRead(op, srcRegIdx, predRead) else Skip;
      opWb := if op.isDest then MakeWrite(op, destRegIdx, predWrite) else Skip;
      ok := true;
    }
  }

  function OpsOf(items: seq<OpDesc>): (ops: seq<Operand>)
    ensures |ops| == |items| && forall i | 0 <= i < |items| :: ops[i] == items[i].op
  {
    seq(|items|, i requires 0 <= i < |items| => items[i].op)
  }

  function Memories(ops: seq<Operand>, i: nat): nat
    requires i <= |ops|
  {
    if i == 0 then 0 else Memories(ops, i - 1) + if ops[i - 1].kind.Memory? then 1 else 0
  }

  /** How many of the first i operands are destinations in a bank. */
  function Dests(ops: seq<Operand>, i: nat, bank: Kind): nat
    requires i <= |ops|
  {
    if i == 0 then 0 else Dests(ops, i - 1, bank) + if ops[i - 1].isDest && ops[i - 1].kind == bank then 1 else 0
  }

  lemma {:induction false} MemoriesGrow(ops: seq<Operand>, i: nat)
    requires i <= |ops|
    ensures Memories(ops, i) <= Memories(ops, |ops|)
    decreases |ops| - i
  {
    if i == |ops| {
    } else {
      MemoriesGrow(ops, i + 1);
    }
  }

  /** A descriptor's numbers are those of its register operand. */
  ghost predicate IsNumbered(items: seq<OpDesc>, i: nat)
    requires i < |items|
    reads items[i]
  {
    var ops, d := OpsOf(items), items[i];
    && (IsReg(d.op) && d.op.isSrc ==> d.srcRegIdx == SrcRegs(ops, i))
    && (IsReg(d.op) && d.op.isDest ==> d.destRegIdx == DestRegs(ops, i))
  }

  /** A descriptor's code is that of its operand at its place in the list. */
  ghost predicate IsFinal(items: seq<OpDesc>, i: nat)
    requires i < |items|
    reads items[i]
  {
    var ops, d := OpsOf(items), items[i];
    !Misused(d.op) && d.construct == MakeConstructor(d.op) && d.opRd == ReadOf(ops, i) && d.opWb == WriteOf(ops, i)
  }

  class OperandList {
    const items: seq<OpDesc>
    var numSrcRegs: nat
    var numDestRegs: nat
    var numFPDestRegs: nat
    var numIntDestRegs: nat
    var numCCDestRegs: nat
    var numMiscDestRegs: nat
    var memOperand: bool
    var predRead: bool
    var predWrite: bool

    constructor (items: seq<OpDesc>)
      ensures this.items == items
    {
      this.items := items;
    }

    /** The counters stand for the first i operands. */
    ghost predicate Counts(i: nat)
      requires i <= |items|
      reads this
    {
      SrcCounts(i) && DestCounts(i) && PredCounts(i)
    }

    ghost predicate SrcCounts(i: nat)
      requires i <= |items|
      reads this`numSrcRegs
    {
      numSrcRegs == SrcRegs(OpsOf(items), i)
    }

    ghost predicate DestCounts(i: nat)
      requires i <= |items|
      reads this`numDestRegs, this`numFPDestRegs, this`numIntDestRegs, this`numCCDestRegs, this`numMiscDestRegs
    {
      var ops := OpsOf(items);
      && numDestRegs == DestRegs(ops, i)
      && numFPDestRegs == Dests(ops, i, FloatReg) && numIntDestRegs == Dests(ops, i, IntReg)
      && numCCDestRegs == Dests(ops, i, CCReg) && numMiscDestRegs == Dests(ops, i, ControlReg)
    }

    ghost predicate PredCounts(i: nat)
      requires i <= |items|
      reads this`predRead, this`predWrite
    {
      predRead == PredRead(OpsOf(items)[..i]) && predWrite == PredWrite(OpsOf(items)[..i])
    }

    /** Counts one operand and numbers it. */
    method Enumerate1(i: nat)
      requires i < |items| && Counts(i)
      modifies this`numSrcRegs, this`numDestRegs, this`numFPDestRegs, this`numIntDestRegs, this`numCCDestRegs,
               this`numMiscDestRegs, this`predRead, this`predWrite, items[i]
      ensures Counts(i + 1) && IsNumbered(items, i)
    {
      var d := items[i];
      NumberSrc(i);
      NumberDest(i);
      predRead := predRead || d.op.readPred.Some?;
      predWrite := predWrite || d.op.writePred.Some?;
      PredSplit(OpsOf(items), i);
    }

    method NumberSrc(i: nat)
      requires i < |items| && SrcCounts(i)
      modifies this`numSrcRegs, {items[i]}`srcRegIdx
      ensures SrcCounts(i + 1) && (IsReg(items[i].op) && items[i].op.isSrc
              ==> items[i].srcRegIdx == SrcRegs(OpsOf(items), i))
    {
      if IsReg(items[i].op) && items[i].op.isSrc {
        items[i].srcRegIdx := numSrcRegs;
        numSrcRegs := numSrcRegs + 1;
      }
    }

    method NumberDest(i: nat)
      requires i < |items| && DestCounts(i)
      modifies this`numDestRegs, this`numFPDestRegs, this`numIntDestRegs, this`numCCDestRegs, this`numMiscDestRegs,
               {items[i]}`destRegIdx
      ensures DestCounts(i + 1)
      ensures IsReg(items[i].op) && items[i].op.isDest ==> items[i].destRegIdx == DestRegs(OpsOf(items), i)
    {
      var op := items[i].op;
      if IsReg(op) && op.isDest {
        items[i].destRegIdx := numDestRegs;
        numDestRegs := numDestRegs + 1;
        if op.kind.FloatReg? {
          numFPDestRegs := numFPDestRegs + 1;
        } else if op.kind.IntReg? {
          numIntDestRegs := numIntDestRegs + 1;
        } else if op.kind.CCReg? {
          numCCDestRegs := numCCDestRegs + 1;
        } else if op.kind.ControlReg? {
          numMiscDestRegs := numMiscDestRegs + 1;
        }
      }
    }

    /** The numbering loop. It fails exactly when there is more than one memory operand. */
    method Enumerate() returns (ok: bool)
      requires forall i, j | 0 <= i < j < |items| :: items[i] != items[j]
      modifies this, items
      ensures ok <==> Memories(OpsOf(items), |items|) <= 1
      ensures ok ==> Counts(|items|) && forall i | 0 <= i < |items| :: IsNumbered(items, i)
    {
      Clear();
      for i := 0 to |items|
        invariant Counts(i) && MemCounts(i)
        invariant forall j | 0 <= j < i :: IsNumbered(items, j)
      {
        ok := NoteMemory(i);
        if !ok {
          return;
        }
        Enumerate1(i);
      }
      ok := true;
    }

    method Clear()
      modifies this
      ensures Counts(0) && MemCounts(0)
    {
      numSrcRegs, numDestRegs, memOperand, predRead, predWrite := 0, 0, false, false, false;
      numFPDestRegs, numIntDestRegs, numCCDestRegs, numMiscDestRegs := 0, 0, 0, 0;
    }

    ghost predicate MemCounts(i: nat)
      requires i <= |items|
      reads this`memOperand
    {
      Memories(OpsOf(items), i) == if memOperand then 1 else 0
    }

    method NoteMemory(i: nat) returns (ok: bool)
      requires i < |items| && MemCounts(i)
      modifies this`memOperand
      ensures if ok then MemCounts(i + 1) else Memories(OpsOf(items), |items|) > 1
    {
      if items[i].op.kind.Memory? {
        if memOperand {
          MemoriesGrow(OpsOf(items), i + 1);
          return false;
        }
        memOperand := true;
      }
      ok := true;
    }

    /** The finalizing loop fails exactly when a register that cannot hold floating point is used for such a type. */
    method Finalize() returns (ok: bool)
      requires forall i, j | 0 <= i < j < |items| :: items[i] != items[j]
      requires Counts(|items|) && forall i | 0 <= i < |items| :: IsNumbered(items, i)
      modifies items
      ensures ok <==> forall i | 0 <= i < |items| :: !Misused(items[i].op)
      ensures ok ==> forall i | 0 <= i < |items| :: IsFinal(items, i)
    {
      assert OpsOf(items)[..|items|] == OpsOf(items);
      for i := 0 to |items|
        invariant forall j | i <= j < |items| :: IsNumbered(items, j)
        invariant forall j | 0 <= j < i :: IsFinal(items, j)
      {
        assert IsNumbered(items, i);
        FinalCode(OpsOf(items), i, items[i].srcRegIdx, items[i].destRegIdx);
        ok := items[i].Finalize(predRead, predWrite);
        if !ok {
          return;
        }
        assert IsFinal(items, i);
      }
      assert forall i | 0 <= i < |items| && IsFinal(items, i) :: !Misused(items[i].op);
      ok := true;
    }
  }

  /** An operand that is not a register has no number, and its code needs none. */
  lemma FinalCode(ops: seq<Operand>, i: nat, src: nat, dest: nat)
    requires i < |ops|
    requires IsReg(ops[i]) && ops[i].isSrc ==> src == SrcRegs(ops, i)
    requires IsReg(ops[i]) && ops[i].isDest ==> dest == DestRegs(ops, i)
    ensures (if ops[i].isSrc then MakeRead(ops[i], src, PredRead(ops)) else Skip) == ReadOf(ops, i)
    ensures (if ops[i].isDest then MakeWrite(ops[i], dest, PredWrite(ops)) else Skip) == WriteOf(ops, i)
  {
  }

  lemma PredSplit(ops: seq<Operand>, i: nat)
    requires i < |ops|
    ensures PredRead(ops[..i + 1]) == (PredRead(ops[..i]) || ops[i].readPred.Some?)
    ensures PredWrite(ops[..i + 1]) == (PredWrite(ops[..i]) || ops[i].writePred.Some?)
  {
    assert ops[..i + 1] == ops[..i] + [ops[i]];
  }

  // ----- the code of a whole list

  ghost predicate AllFinal(items: seq<OpDesc>)
    reads items
  {
    forall i | 0 <= i < |items| :: IsFinal(items, i)
  }

  /** The constructor code, put together operand by operand. */
  method ConcatConstruct(items: seq<OpDesc>) returns (code: Code)
    requires AllFinal(items)
    ensures code == Constructors(OpsOf(items), |items|)
  {
    code := Skip;
    for i := 0 to |items|
      invariant code == Constructors(OpsOf(items), i)
    {
      assert IsFinal(items, i);
      code := Then(code, items[i].construct);
    }
  }

  /** The read code of the first i operands, put together from the front. */
  function ReadLeft(ops: seq<Operand>, i: nat): Code
    requires i <= |ops|
  {
    if i == 0 then Skip else Then(ReadLeft(ops, i - 1), ReadOf(ops, i - 1))
  }

  /** Putting code together from the front or from the back is the same when it runs. */
  lemma {:induction false} ReadLeftRuns(ops: seq<Operand>, i: nat, env: Env, m: Machine)
    requires i <= |ops|
    ensures Run(Then(ReadLeft(ops, i), ReadCode(ops, i)), env, m) == Run(ReadCode(ops, 0), env, m)
  {
    if i > 0 {
      ReadLeftRuns(ops, i - 1, env, m);
      Associates(ReadLeft(ops, i - 1), ReadOf(ops, i - 1), ReadCode(ops, i), env, m);
    } else {
      assert Run(Skip, env, m) == Some(m);
    }
  }

  lemma Associates(a: Code, b: Code, c: Code, env: Env, m: Machine)
    ensures Run(Then(Then(a, b), c), env, m) == Run(Then(a, Then(b, c)), env, m)
  {
    var r := Run(a, env, m);
    assert Run(Then(a, b), env, m) == if r.None? then None else Run(b, env, r.value);
    if r.Some? {
      var q := Run(b, env, r.value);
      assert Run(Then(b, c), env, r.value) == if q.None? then None else Run(c, env, q.value);
    }
  }

  method ConcatRead(items: seq<OpDesc>) returns (code: Code)
    requires AllFinal(items)
    ensures code == ReadLeft(OpsOf(items), |items|)
  {
    code := Skip;
    for i := 0 to |items|
      invariant code == ReadLeft(OpsOf(items), i)
    {
      assert IsFinal(items, i);
      code := Then(code, items[i].opRd);
    }
  }

  /** The loop that composes the write-back code, going backwards over the operands. */
  method ComposeWriteBack(items: seq<OpDesc>) returns (code: Code)
    requires AllFinal(items)
    ensures code == WriteCode(OpsOf(items), 0)
  {
    ghost var ops := OpsOf(items);
    code := Skip;
    var commit := true;
    var i := |items|;
    while i > 0
      invariant 0 <= i <= |items| && code == WriteCode(ops, i) && commit == !AnyPartFrom(ops, i)
    {
      i := i - 1;
      assert IsFinal(items, i);
      var wb := items[i].opWb;
      if PartDest(items[i].op) {
        code := if commit then Then(wb, Then(Do(CommitPc), code)) else Then(wb, code);
        commit := false;
      } else {
        code := Then(wb, code);
      }
    }
  }

  /** Numbers the operands, makes their code, and puts it together. */
  method Generate(list: OperandList) returns (ok: bool, construct: Code, rd: Code, wb: Code)
    requires forall i, j | 0 <= i < j < |list.items| :: list.items[i] != list.items[j]
    modifies list, list.items
    ensures var ops := OpsOf(list.items);
            && (ok <==> Memories(ops, |ops|) <= 1 && forall i | 0 <= i < |ops| :: !Misused(ops[i]))
            && (ok ==> construct == Constructors(ops, |ops|) && rd == ReadLeft(ops, |ops|) && wb == WriteCode(ops, 0))
  {
    construct, rd, wb := Skip, Skip, Skip;
    ok := list.Enumerate();
    if ok {
      ok := list.Finalize();
    }
    if ok {
      construct := ConcatConstruct(list.items);
      rd := ConcatRead(list.items);
      wb := ComposeWriteBack(list.items);
    }
  }

  /** The read section as it is put together. */
  function GeneratedRead(ops: seq<Operand>): Code {
    Then(Fetch(ops), ReadLeft(ops, |ops|))
  }

  /** The code that is generated for a list agrees on all slots exactly when its registers fit them. */
  lemma GeneratedCodeIff(ops: seq<Operand>, env: Env, m: Machine, vars: map<string, int>)
    requires Fresh(m)
    ensures ReadsRight(GeneratedRead(ops), ops, env, m) <==> Fit(Filled(ops, |ops|, env))
    ensures WritesRight(ops, env, m, vars) <==> Fit(Filled(ops, |ops|, env))
  {
    ReadsAgreeIff(ops, env, m);
    WritesAgreeIff(ops, env, m, vars);
    var c := Run(Constructors(ops, |ops|), env, m);
    if c.Some? {
      GeneratedReadRuns(ops, env, c.value);
    }
  }

  lemma GeneratedReadRuns(ops: seq<Operand>, env: Env, m: Machine)
    ensures Run(GeneratedRead(ops), env, m) == Run(ReadSection(ops), env, m)
  {
    var m1 := Run(Fetch(ops), env, m).value;
    ReadLeftRuns(ops, |ops|, env, m1);
    EndsInSkip(ReadLeft(ops, |ops|), env, m1);
  }

  lemma EndsInSkip(code: Code, env: Env, m: Machine)
    ensures Run(Then(code, Skip), env, m) == Run(code, env, m)
  {
    var r := Run(code, env, m);
    assert r.Some? ==> Run(Skip, env, r.value) == r;
  }
}
