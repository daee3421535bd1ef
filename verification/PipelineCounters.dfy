/** What the performance counters (statistic.rs) count, in terms of the sequential machine. */
module PipelineCounters {
  import opened Words
  import opened Isa
  import opened Uop
  import opened Pipeline
  import opened PipelineProof
  import opened PipelineTheorems

  /** The instructions that have left EXE. */
  function Issued(s: State): nat {
    s.hpm.retired + Count(s.wb) + Count(s.mem)
  }

  /** The control transfers among the machine's first `k` instructions. */
  function Controls(code: Program, start: Arch, k: nat): nat {
    if k == 0 then 0
    else Controls(code, start, k - 1) + if IsControl(code(After(code, start, k - 1).pc).op) then 1 else 0
  }

  predicate Counted(code: Program, start: Arch, s: State) {
    s.hpm.branches == Controls(code, start, Issued(s))
  }

  /** The machine's next instruction is a control transfer for which the prediction `p` was wrong: in its direction, or
      in the address when it is taken. */
  predicate Mispredicted(code: Program, a: Arch, p: Prediction) {
    var i := code(a.pc);
    var taken := Taken(i.op, a.regs[i.rs1], a.regs[i.rs2]);
    IsControl(i.op) && (p.taken != taken || (taken && p.addr != RawNext(code, a)))
  }

  /** The op that leaves EXE in this cycle. */
  function Leaving(s: State, inp: Input): Option<MicroOp> {
    match UpToExecute(s, inp)
    case Abort(_) => None
    case Ok(r) => if r.mem.None? && ExecuteStage(r).Ok? && ExecuteStage(r).state.mem.Some? then r.exe else None
  }

  /** It leaves after a prediction that the machine proves wrong. */
  predicate MissesIn(code: Program, start: Arch, s: State, inp: Input) {
    var op := Leaving(s, inp);
    Real(op) && op.value.predicted.Some? && Mispredicted(code, After(code, start, Issued(s)), op.value.predicted.value)
  }

  /** The cycles of a run in which that happens. */
  function Misses(code: Program, start: Arch, s: State, inputs: seq<Input>): nat {
    if |inputs| == 0 then 0
    else
      var earlier := inputs[..|inputs| - 1];
      match Run(code, s, earlier)
      case Abort(_) => Misses(code, start, s, earlier)
      case Ok(t) =>
        Misses(code, start, s, earlier) + if MissesIn(code, start, t, inputs[|inputs| - 1]) then 1 else 0
  }

  lemma OpenCounts(s: State)
    requires s.recover ==> s.flushDepth == 3 && s.mem.Some?
    ensures var r := Open(s);
            && r.Ok? && Issued(r.state) == Issued(s)
            && r.state.hpm.cycles == s.hpm.cycles + 1
            && r.state.hpm.branches == s.hpm.branches && r.state.hpm.misses == s.hpm.misses
  {
    hide Forwarded;
    if s.recover {
      RecoverEffect(s.(hpm := s.hpm.(cycles := s.hpm.cycles + 1)));
      hide Recover;
    }
  }

  lemma WriteBackCounts(s: State)
    ensures var t := WriteBack(s);
            Issued(t) == Issued(s) && t.hpm == s.hpm.(retired := t.hpm.retired) && t.wb.None?
  {
    hide WriteReg, MicroOp.Writeback;
  }

  lemma MemoryCounts(s: State, inp: Input)
    requires s.wb.None? && MemoryStage(s, inp).Ok?
    ensures var t := MemoryStage(s, inp).state;
            Issued(t) == Issued(s) && t.hpm == s.hpm
  {
    hide Progress, MicroOp.MemoryAccess;
  }

  /** What EXE computes for an op, and whether its resolution asks for recovery. */
  function Computed(op: MicroOp): MicroOp {
    var operands := AluOperands(op);
    if operands.Some? then Uop.Compute(op, operands.value.0, operands.value.1) else op
  }

  predicate Missed(op: MicroOp) {
    var taken := BranchTaken(op.inst.op, ValueOf(op.rs1), ValueOf(op.rs2));
    op.predicted.Some? && taken.Some? && Resolution(op.pc, op.predicted.value, op.aluResult).NeedsRecovery(taken.value)
  }

  lemma ResolveCounts(s: State, op: MicroOp)
    requires Resolve(s, op).Ok?
    ensures var t := Resolve(s, op).state;
            && t.mem == Some(op) && t.exe.None? && t.wb == s.wb
            && t.hpm == s.hpm.(branches := t.hpm.branches, misses := t.hpm.misses)
            && t.hpm.branches == s.hpm.branches + (if IsControl(op.inst.op) then 1 else 0)
            && t.hpm.misses == s.hpm.misses + (if IsControl(op.inst.op) && Missed(op) then 1 else 0)
  {
    if IsControl(op.inst.op) {
      AlwaysResolved(op);
    }
    hide BranchTaken, IsControl;
  }

  lemma AlwaysResolved(op: MicroOp)
    requires IsControl(op.inst.op)
    ensures BranchTaken(op.inst.op, ValueOf(op.rs1), ValueOf(op.rs2)).Some?
  {}

  lemma ComputedSame(op: MicroOp)
    ensures var c := Computed(op);
            c.inst == op.inst && c.placeholder == op.placeholder && c.pc == op.pc && c.predicted == op.predicted
            && c.rs1 == op.rs1 && c.rs2 == op.rs2
  {
    hide AluResult;
  }

  /** EXE counts a control transfer when it lets one go, and a misprediction when its resolution says so. */
  lemma ExecuteCounts(s: State)
    requires ExecuteStage(s).Ok?
    ensures var t := ExecuteStage(s).state;
            var left := s.mem.None? && t.mem.Some?;
            && (left ==> s.exe.Some? && t.exe.None? && t.mem.value.placeholder == s.exe.value.placeholder)
            && (!left ==> t.mem == s.mem)
            && t.wb == s.wb
            && t.hpm == s.hpm.(branches := t.hpm.branches, misses := t.hpm.misses)
            && t.hpm.branches == s.hpm.branches + (if left && IsControl(s.exe.value.inst.op) then 1 else 0)
            && t.hpm.misses == s.hpm.misses
                               + (if left && IsControl(s.exe.value.inst.op) && Missed(Computed(s.exe.value)) then 1 else 0)
  {
    hide AluOperands, Uop.Compute, MExtensionStall, Resolve, Missed, IsControl;
    if s.mem.None? && s.exe.Some? {
      var op := s.exe.value;
      ComputedSame(op);
      EcallIsNoControl(op.inst.op);
      var c := s.(countdown := if MExtensionStall(op.inst.op).Some? then None else CountDown(s.countdown));
      if Resolve(c, Computed(op)).Ok? {
        ResolveCounts(c, Computed(op));
      }
    }
  }

  lemma EcallIsNoControl(op: Op)
    ensures op.Ecall? ==> !IsControl(op)
  {}

  /** The resolution asks for recovery exactly when the machine proves the prediction wrong. */
  lemma MissedMeans(code: Program, op: MicroOp, a: Arch)
    requires IsNext(code, op, a) && WellDecoded(op) && HasOperands(op, a.regs) && IsControl(op.inst.op)
    ensures op.predicted.Some? && (Missed(Computed(op)) <==> Mispredicted(code, a, op.predicted.value))
  {
    TargetMeaning(code, op, a);
    TakenMeaning(code, op, a);
    ComputedSame(op);
    hide WellDecoded, HasOperands, AluOperands, BranchTaken, Taken, Wrap, AluResult;
  }

  lemma FrontCounts(code: Program, s: State, inp: Input)
    requires FrontEnd(code, s, inp).Ok?
    ensures var t := FrontEnd(code, s, inp).state;
            Issued(t) == Issued(s) && t.hpm == s.hpm.(fetched := t.hpm.fetched)
  {
    hide DecodeWith, LoadUseHazard, OpcodeOf, IsControlOpcode;
  }

  lemma UpToCounts(s: State, inp: Input)
    requires (s.recover ==> s.flushDepth == 3 && s.mem.Some?) && UpToExecute(s, inp).Ok?
    ensures var t := UpToExecute(s, inp).state;
            && Issued(t) == Issued(s) && t.hpm.cycles == s.hpm.cycles + 1
            && t.hpm.branches == s.hpm.branches && t.hpm.misses == s.hpm.misses
  {
    hide Open, WriteBack, MemoryStage;
    OpenCounts(s);
    var s1 := Open(s).state;
    WriteBackCounts(s1);
    MemoryCounts(WriteBack(s1), inp);
  }

  /** The op that leaves EXE is the machine's next instruction, or a bubble, which is no control transfer. */
  lemma LeavingOp(code: Program, start: Arch, s: State)
    requires var a := After(code, start, s.hpm.retired); Base(code, s, a) && Ready(code, s, a)
    requires !s.recover && s.mem.None? && s.exe.Some?
    ensures var b, op := After(code, start, Issued(s)), s.exe.value;
            && (Real(s.exe) ==> op.inst == code(b.pc))
            && (Real(s.exe) && IsControl(op.inst.op) ==>
                  op.predicted.Some? && (Missed(Computed(op)) <==> Mispredicted(code, b, op.predicted.value)))
            && (!Real(s.exe) ==> !IsControl(op.inst.op))
  {
    hide Step, Missed, Computed, Mispredicted;
    var a := After(code, start, s.hpm.retired);
    assert Past(code, s.wb, a) == After(code, start, Issued(s));
    if Real(s.exe) {
      ExeIsNext(code, s, a);
      if IsControl(s.exe.value.inst.op) {
        MissedMeans(code, s.exe.value, After(code, start, Issued(s)));
      }
    }
    hide Ready, WbOk, RegsOk, BusOk, FetchOk, Chain, Balanced, WellDecoded, RecoveryOk, IdShape, HasOperands, MemOk, After;
  }

  lemma ExecuteCounted(code: Program, start: Arch, s: State)
    requires var a := After(code, start, s.hpm.retired); Base(code, s, a) && Ready(code, s, a)
    requires !s.recover && Counted(code, start, s) && ExecuteStage(s).Ok?
    ensures var t := ExecuteStage(s).state;
            && Counted(code, start, t) && t.hpm.cycles == s.hpm.cycles
            && t.hpm.misses == s.hpm.misses
                 + (if s.mem.None? && t.mem.Some? && Real(s.exe) && s.exe.value.predicted.Some?
                       && Mispredicted(code, After(code, start, Issued(s)), s.exe.value.predicted.value) then 1 else 0)
  {
    hide Base, Ready, ExecuteStage, Step, Missed, Computed;
    ExecuteCounts(s);
    if s.mem.None? && s.exe.Some? {
      LeavingOp(code, start, s);
    }
  }

  lemma TickCounts(code: Program, start: Arch, s: State, inp: Input)
    requires Invariant(code, start, s) && Counted(code, start, s) && Tick(code, s, inp).Ok?
    ensures var t := Tick(code, s, inp).state;
            && Counted(code, start, t) && t.hpm.cycles == s.hpm.cycles + 1
            && t.hpm.misses == s.hpm.misses + (if MissesIn(code, start, s, inp) then 1 else 0)
  {
    hide Base, Ready, WillBeReady, UpToExecute, ExecuteStage, FrontEnd, Step, Issued, Controls, Mispredicted;
    var a := After(code, start, s.hpm.retired);
    RecoveryDepth(code, s, a);
    UpToCounts(s, inp);
    UpToExecuteKeeps(code, s, inp, a);
    var r := UpToExecute(s, inp).state;
    RetiredState(code, start, s);
    ExecuteCounted(code, start, r);
    FrontCounts(code, ExecuteStage(r).state, inp);
  }

  lemma RetiredState(code: Program, start: Arch, s: State)
    ensures Past(code, s.wb, After(code, start, s.hpm.retired)) == After(code, start, s.hpm.retired + Count(s.wb))
  {
    hide Step;
  }

  lemma RecoveryDepth(code: Program, s: State, a: Arch)
    requires Base(code, s, a)
    ensures s.recover ==> s.flushDepth == 3 && s.mem.Some?
  {
    hide RegsOk, WbOk, MemOk, BusOk, FetchOk, IdShape, ExeShape, Chain, RawNext, Step;
  }

  /** In any run the cycle counter counts the cycles, the branch counter the machine's control transfers that have left
      EXE, and the misprediction counter those of them whose prediction the machine proves wrong. */
  lemma {:induction false} CountersMean(code: Program, pc: Word, m: Memory, inputs: seq<Input>)
    requires Run(code, Pipeline.Initial(pc, m), inputs).Ok?
    ensures var s, start := Run(code, Pipeline.Initial(pc, m), inputs).state, Isa.Initial(pc, m);
            && s.hpm.cycles == |inputs| && s.hpm.branches == Controls(code, start, Issued(s))
            && s.hpm.misses == Misses(code, start, Pipeline.Initial(pc, m), inputs)
  {
    hide Tick, Invariant, MissesIn, Pipeline.Initial;
    if |inputs| == 0 {
      NothingCounted(code, pc, m);
    } else {
      var earlier := inputs[..|inputs| - 1];
      CountersMean(code, pc, m, earlier);
      RunKeeps(code, pc, m, earlier);
      TickCounts(code, Isa.Initial(pc, m), Run(code, Pipeline.Initial(pc, m), earlier).state, inputs[|inputs| - 1]);
    }
  }

  lemma NothingCounted(code: Program, pc: Word, m: Memory)
    ensures Counted(code, Isa.Initial(pc, m), Pipeline.Initial(pc, m))
    ensures Pipeline.Initial(pc, m).hpm.cycles == 0 && Pipeline.Initial(pc, m).hpm.misses == 0
  {}
}
