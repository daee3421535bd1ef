/** What holds over every run of the pipeline, for any memory latencies and any predictor answers. */
module PipelineTheorems {
  import opened Words
  import opened Isa
  import opened Uop
  import opened Pipeline
  import opened PipelineProof

  /** The sequential machine after `k` instructions of a program started at `pc`. */
  function Machine(code: Program, pc: Word, m: Memory, k: nat): Arch {
    After(code, Isa.Initial(pc, m), k)
  }

  lemma {:induction false} RunKeeps(code: Program, pc: Word, m: Memory, inputs: seq<Input>)
    ensures match Run(code, Pipeline.Initial(pc, m), inputs)
            case Abort(p) => p in {IllegalInstruction, FenceFetched, MisalignedFetch, MisalignedData}
            case Ok(s) => Invariant(code, Isa.Initial(pc, m), s)
  {
    hide Invariant, Tick;
    if |inputs| == 0 {
      InitialInvariant(code, pc, m);
    } else {
      var earlier := inputs[..|inputs| - 1];
      RunKeeps(code, pc, m, earlier);
      var r := Run(code, Pipeline.Initial(pc, m), earlier);
      if r.Ok? {
        TickKeeps(code, Isa.Initial(pc, m), r.state, inputs[|inputs| - 1]);
      }
    }
  }

  /** `s` is the state at the end of some cycle of some run. */
  ghost predicate Reachable(code: Program, pc: Word, m: Memory, s: State) {
    exists inputs :: Run(code, Pipeline.Initial(pc, m), inputs) == Ok(s)
  }

  lemma ReachableKeeps(code: Program, pc: Word, m: Memory, s: State)
    requires Reachable(code, pc, m, s)
    ensures Invariant(code, Isa.Initial(pc, m), s)
  {
    hide Run, Invariant;
    var inputs :| Run(code, Pipeline.Initial(pc, m), inputs) == Ok(s);
    RunKeeps(code, pc, m, inputs);
  }

  /** The pipeline refines the ISA: in every reachable state the register file and the halt flag are those of
      the sequential machine after as many instructions as have retired, and none of those trapped. */
  lemma PipelineRefinesIsa(code: Program, pc: Word, m: Memory, s: State)
    requires Reachable(code, pc, m, s)
    ensures var a := Machine(code, pc, m, s.hpm.retired);
            && s.regs == a.regs && s.regs[0] == 0
            && s.halt == a.halted
            && !a.trapped
  {
    ReachableKeeps(code, pc, m, s);
    hide Reachable, Step;
  }

  /** A cycle aborts only for an illegal word, FENCE, or a misaligned address: no missing operand, missing
      prediction, missing branch at recovery or occupied bubble slot is ever met. */
  lemma AbortsOnlyOnBadPrograms(code: Program, pc: Word, m: Memory, s: State, inp: Input)
    requires Reachable(code, pc, m, s) && Tick(code, s, inp).Abort?
    ensures Tick(code, s, inp).panic in {IllegalInstruction, FenceFetched, MisalignedFetch, MisalignedData}
  {
    hide Reachable, Invariant, Tick;
    ReachableKeeps(code, pc, m, s);
    TickKeeps(code, Isa.Initial(pc, m), s, inp);
  }

  lemma InFlight(code: Program, start: Arch, s: State)
    requires Invariant(code, start, s)
    ensures var k := s.hpm.retired + Count(s.wb);
            && Past(code, s.wb, After(code, start, s.hpm.retired)) == After(code, start, k)
            && Past(code, s.mem, After(code, start, k)) == After(code, start, k + Count(s.mem))
            && !After(code, start, k).trapped
            && (s.txn.TxnWaiting? ==> Real(s.mem))
            && var done := After(code, start, if s.txn.TxnWaiting? then k + 1 else k);
               s.bus == Bus(done.mem, done.accesses)
  {
    hide Step, WillBeReady;
    var a := After(code, start, s.hpm.retired);
    BusInFlight(code, s, a);
    hide Base;
    assert Past(code, s.wb, a) == After(code, start, s.hpm.retired + Count(s.wb));
  }

  lemma BusInFlight(code: Program, s: State, a: Arch)
    requires Base(code, s, a)
    ensures var b := Past(code, s.wb, a);
            && !b.trapped
            && (s.txn.TxnWaiting? ==> Real(s.mem))
            && var done := if s.txn.TxnWaiting? then Past(code, s.mem, b) else b;
               s.bus == Bus(done.mem, done.accesses)
  {
    hide Step, Perform, Aligned, FetchOk, IdShape, ExeShape, RecoveryOk, Chain, Balanced;
    WbDone(code, s.regs, s.halt, s.wb, a);
    if s.txn.TxnWaiting? {
      AccessStep(code, s.mem.value, Past(code, s.wb, a));
    }
  }

  /** Exactly-once, in-order data accesses: what the data cache accepted is the access list of the sequential
      machine, and memory is its memory, at one of the instructions in flight. */
  lemma AccessesInProgramOrder(code: Program, pc: Word, m: Memory, s: State)
    requires Reachable(code, pc, m, s)
    ensures var k := s.hpm.retired + Count(s.wb);
            var done := if s.txn.TxnWaiting? then k + 1 else k;
            && (s.txn.TxnWaiting? ==> Real(s.mem))
            && s.bus == Bus(Machine(code, pc, m, done).mem, Machine(code, pc, m, done).accesses)
  {
    hide Reachable, Invariant;
    ReachableKeeps(code, pc, m, s);
    InFlight(code, Isa.Initial(pc, m), s);
  }

  /** Speculation safety: the ops in WB and MEM are always the machine's next instructions, never wrong-path
      ones, and a pending recovery belongs to a control transfer in MEM. */
  lemma NoWrongPathBeyondExe(code: Program, pc: Word, m: Memory, s: State)
    requires Reachable(code, pc, m, s)
    ensures var k := s.hpm.retired;
            && (Real(s.wb) ==> Retirable(code, s.wb.value, Machine(code, pc, m, k)))
            && (Real(s.mem) ==> Executed(code, s.mem.value, Machine(code, pc, m, k + Count(s.wb))))
            && (s.recover ==> Real(s.mem) && IsControl(s.mem.value.inst.op))
  {
    hide Reachable, Step, Retirable, Executed;
    ReachableKeeps(code, pc, m, s);
    InFlight(code, Isa.Initial(pc, m), s);
  }

  lemma DecodedSources(op: MicroOp)
    requires WellDecoded(op)
    ensures op.rs1.Some? ==> op.rs1.value.reg == op.inst.rs1
    ensures op.rs2.Some? ==> op.rs2.value.reg == op.inst.rs2
    ensures UsesRs1(op.inst.op) ==> op.rs1.Some?
    ensures UsesRs2(op.inst.op) ==> op.rs2.Some?
  {}

  /** `op` is the next instruction of `a`, and holds the source values `a` has. */
  predicate SequentialOperands(code: Program, op: MicroOp, a: Arch) {
    && !a.trapped
    && op.pc == a.pc && op.inst == code(a.pc)
    && (op.rs1.Some? ==> op.rs1.value == Source(op.inst.rs1, a.regs[op.inst.rs1]))
    && (op.rs2.Some? ==> op.rs2.value == Source(op.inst.rs2, a.regs[op.inst.rs2]))
    && (UsesRs1(op.inst.op) ==> op.rs1.Some?)
    && (UsesRs2(op.inst.op) ==> op.rs2.Some?)
  }

  lemma ReadyIsSequential(code: Program, t: State, a: Arch)
    requires Base(code, t, a) && Ready(code, t, a) && !t.recover && t.mem.None? && Real(t.exe)
    ensures SequentialOperands(code, t.exe.value, Past(code, t.wb, a))
  {
    ExeIsNext(code, t, a);
    hide Base, Ready, WellDecoded, Step;
    DecodedSources(t.exe.value);
  }

  /** Operand correctness: whenever EXE is free to execute a real op, that op is the machine's next instruction
      and its source values are the machine's registers just before it, whatever was forwarded or stalled. */
  lemma OperandsAreSequential(code: Program, pc: Word, m: Memory, s: State, inp: Input)
    requires Reachable(code, pc, m, s)
    requires var r := UpToExecute(s, inp);
             r.Ok? && r.state.mem.None? && Real(r.state.exe)
    ensures var t := UpToExecute(s, inp).state;
            SequentialOperands(code, t.exe.value, Machine(code, pc, m, t.hpm.retired + Count(t.wb)))
  {
    hide Reachable, Base, Ready, WillBeReady, UpToExecute, Step, SequentialOperands;
    var start := Isa.Initial(pc, m);
    ReachableKeeps(code, pc, m, s);
    var a := After(code, start, s.hpm.retired);
    UpToExecuteKeeps(code, s, inp, a);
    var t := UpToExecute(s, inp).state;
    ReadyIsSequential(code, t, Past(code, s.wb, a));
    assert Past(code, s.wb, a) == After(code, start, t.hpm.retired);
    assert Past(code, t.wb, After(code, start, t.hpm.retired)) == After(code, start, t.hpm.retired + Count(t.wb));
  }

  lemma RawNextExactly(code: Program, a: Arch)
    requires !a.trapped && !Step(code, a).trapped && IsControl(code(a.pc).op)
    ensures var i := code(a.pc);
            RawNext(code, a) == Step(code, a).pc <==> !(i.op.Jalr? && (a.regs[i.rs1] + i.imm) % 2 == 1)
  {
    TrapOrStep(code, a);
  }

  lemma PendingRecovery(code: Program, s: State, a: Arch)
    requires Base(code, s, a) && s.recover
    ensures var b := Past(code, s.wb, a);
            && Real(s.mem) && s.flushDepth == 3 && !b.trapped
            && !Step(code, b).trapped && IsControl(code(b.pc).op)
            && s.destination == RawNext(code, b) && s.correctDirection == TakenAt(code, b)
  {
    hide Step, RawNext, Chain, IdShape, ExeShape, FetchOk, BusOk;
    WbDone(code, s.regs, s.halt, s.wb, a);
    ControlStep(code, s.mem.value, Past(code, s.wb, a));
  }

  /** Recovery empties ID and EXE and sends fetch to the successor of the mispredicted instruction. That is the
      machine's own next pc if and only if it is not the odd target of a JALR, whose low bit EXE keeps. */
  lemma RecoveryTarget(code: Program, pc: Word, m: Memory, s: State)
    requires Reachable(code, pc, m, s) && s.recover
    ensures Recover(s).Ok?
    ensures var k := s.hpm.retired + Count(s.wb);
            var a, next := Machine(code, pc, m, k), Machine(code, pc, m, k + 1);
            var i, t := code(a.pc), Recover(s).state;
            && t.id.None? && t.exe.None? && t.mem == s.mem
            && s.correctDirection == Taken(i.op, a.regs[i.rs1], a.regs[i.rs2])
            && (t.ifPc == next.pc <==> !(i.op.Jalr? && (a.regs[i.rs1] + i.imm) % 2 == 1))
  {
    hide Reachable, Base, WillBeReady, Step, RawNext, Recover;
    var start := Isa.Initial(pc, m);
    ReachableKeeps(code, pc, m, s);
    InFlight(code, start, s);
    var a := After(code, start, s.hpm.retired);
    PendingRecovery(code, s, a);
    RecoverEffect(s);
    RawNextExactly(code, Past(code, s.wb, a));
  }

  /** Instruction conservation at the end of every cycle: a fetched instruction has retired, was flushed, or is
      in one of the four stages; and every recovery that happened flushed two slots. */
  lemma InstructionsConserved(code: Program, pc: Word, m: Memory, s: State)
    requires Reachable(code, pc, m, s)
    ensures s.hpm.fetched == s.hpm.retired + s.hpm.flushedOps
                             + Count(s.id) + Count(s.exe) + Count(s.mem) + Count(s.wb)
    ensures s.hpm.flushes == 2 * (s.hpm.misses - if s.recover then 1 else 0)
  {
    hide Reachable, Past;
    ReachableKeeps(code, pc, m, s);
  }

  /** The runner stops on the right instruction: if a cycle raises the halt flag, the last instruction retired
      is the machine's first ECALL with a0 = 0, and the registers are the machine's after it. */
  lemma {:induction false} HaltsAtFirstHaltingEcall(code: Program, pc: Word, m: Memory, s: State, inp: Input)
    requires Reachable(code, pc, m, s) && !s.halt
    requires Tick(code, s, inp).Ok? && Tick(code, s, inp).state.halt
    ensures var t := Tick(code, s, inp).state;
            var n := t.hpm.retired;
            && n > 0 && n == s.hpm.retired + 1
            && var last := Machine(code, pc, m, n - 1);
               && code(last.pc).op.Ecall? && last.regs[10] == 0
               && t.regs == Machine(code, pc, m, n).regs
               && forall k: nat :: k < n ==> !Machine(code, pc, m, k).halted
  {
    hide Reachable, Base, WillBeReady, Tick, Step;
    var start := Isa.Initial(pc, m);
    ReachableKeeps(code, pc, m, s);
    TickKeeps(code, start, s, inp);
    var t := Tick(code, s, inp).state;
    InvariantRegs(code, start, s);
    InvariantRegs(code, start, t);
    HaltStep(code, After(code, start, s.hpm.retired));
    forall k: nat | k <= s.hpm.retired
      ensures !After(code, start, k).halted
    {
      if After(code, start, k).halted {
        HaltSticks(code, start, k, s.hpm.retired);
      }
    }
  }

  lemma InvariantRegs(code: Program, start: Arch, s: State)
    requires Invariant(code, start, s)
    ensures var a := After(code, start, s.hpm.retired);
            s.regs == a.regs && s.halt == a.halted && !a.trapped
  {
    hide Step;
  }

  lemma HaltStep(code: Program, a: Arch)
    ensures a.halted ==> Step(code, a).halted
    ensures !a.halted && Step(code, a).halted ==> code(a.pc).op.Ecall? && a.regs[10] == 0
  {}

  lemma {:induction false} HaltSticks(code: Program, start: Arch, j: nat, k: nat)
    requires j <= k && After(code, start, j).halted
    ensures After(code, start, k).halted
  {
    hide Step;
    if j < k {
      HaltSticks(code, start, j, k - 1);
      HaltStep(code, After(code, start, k - 1));
    }
  }
}
