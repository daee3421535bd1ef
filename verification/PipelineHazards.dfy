/** What is in EXE at the end of a cycle (pipe.rs): a bubble exactly behind a load whose register the raw fields of the
    word in ID name, and otherwise the op that was in ID. */
module PipelineHazards {
  import opened Words
  import opened Isa
  import opened Uop
  import opened Pipeline
  import opened PipelineProof
  import opened PipelineProgress
  import opened PipelineTheorems

  predicate Loads(op: Op) {
    op.Lb? || op.Lh? || op.Lw? || op.Lbu? || op.Lhu?
  }

  /** The five opcodes whose words have no source fields. */
  predicate NoSourceFields(op: Op) {
    op.Jal? || op.Lui? || op.Auipc? || op.Fence? || op.Ecall?
    || (op.Illegal? && op.opcode.Some? && op.opcode.value in {OpJal, OpLui, OpAuipc, OpMiscMem, OpSystem})
  }

  /** MEM holds a load of a register other than x0, and a raw register field of the word in ID names that register,
      whether or not the instruction reads it. */
  predicate BehindItsLoad(r: State) {
    && r.id.Some? && r.mem.Some? && Loads(r.mem.value.inst.op)
    && r.mem.value.rd.Some? && r.mem.value.rd.value != 0
    && !NoSourceFields(r.id.value.inst.op)
    && (r.id.value.inst.rs1 == r.mem.value.rd.value || r.id.value.inst.rs2 == r.mem.value.rd.value)
  }

  /** The hazard check in both directions. */
  lemma HazardIff(s: State)
    requires LoadUseHazard(s).Some?
    ensures LoadUseHazard(s).value <==> s.exe.None? && BehindItsLoad(s)
  {
    if s.id.Some? {
      OpcodeMeans(s.id.value.inst.op);
    }
    if s.mem.Some? {
      LoadMeans(s.mem.value);
    }
    hide OpcodeOf, MicroOp.IsLoadOp, NoSourceFields, Loads;
  }

  lemma LoadMeans(op: MicroOp)
    ensures op.IsLoadOp() <==> Loads(op.inst.op)
  {}

  lemma OpcodeMeans(op: Op)
    ensures OpcodeOf(op).Some? && OpcodeOf(op).value in {OpJal, OpLui, OpAuipc, OpMiscMem, OpSystem} <==> NoSourceFields(op)
  {}

  /** The state in which EXE leaves the pipeline to ID and IF. */
  function AfterExe(s: State, inp: Input): Outcome {
    match UpToExecute(s, inp)
    case Abort(p) => Abort(p)
    case Ok(t) => ExecuteStage(t)
  }

  lemma DecodeFills(s: State, stall: bool)
    requires DecodeStage(s, stall).Ok?
    ensures var t := DecodeStage(s, stall).state;
            && t.mem == s.mem
            && if s.exe.Some? || s.id.None? || stall then t == s
               else t.exe.Some? && SameInst(t.exe.value, s.id.value) && t.id.None? && t.exe.value.placeholder == s.id.value.placeholder
  {
    if s.id.Some? {
      DecodeSame(s.id.value, s.regs[s.id.value.inst.rs1], s.regs[s.id.value.inst.rs2]);
    }
    hide DecodeWith;
  }

  lemma DecodeSame(f: MicroOp, x: Word, y: Word)
    ensures SameInst(DecodeWith(f, x, y), f)
  {}

  lemma FetchHolds(code: Program, s: State, inp: Input)
    requires FetchStage(code, s, inp).Ok?
    ensures var t := FetchStage(code, s, inp).state;
            t.exe == s.exe && t.mem == s.mem && (s.id.Some? ==> t.id == s.id)
  {
    hide OpcodeOf, PredictedNext;
  }

  /** EXE after ID, IF and the bubble. */
  lemma FrontFills(code: Program, r: State, inp: Input)
    requires FrontEnd(code, r, inp).Ok?
    ensures var t := FrontEnd(code, r, inp).state;
            if r.exe.Some? then t.exe == r.exe
            else if BehindItsLoad(r) then t.exe == Some(BUBBLE) && t.id == r.id
            else if r.id.Some? then t.exe.Some? && SameInst(t.exe.value, r.id.value)
            else t.exe.None?
  {
    hide LoadUseHazard, DecodeStage, FetchStage, BehindItsLoad;
    HazardIff(r);
    var stall := LoadUseHazard(r).value;
    DecodeFills(r, stall);
    FetchHolds(code, DecodeStage(r, stall).state, inp);
    NeedsId(r);
  }

  lemma NeedsId(r: State)
    ensures BehindItsLoad(r) ==> r.id.Some?
  {}

  /** The load-use stall, exactly: over a whole cycle, a bubble enters EXE if and only if EXE has emptied and the word in
      ID is behind its load; if it is not, it is itself in EXE at the end of the cycle; and an op that stays in EXE
      stays the same. */
  lemma StallsExactlyBehindLoads(code: Program, s: State, inp: Input)
    requires Tick(code, s, inp).Ok?
    ensures AfterExe(s, inp).Ok?
    ensures var r, t := AfterExe(s, inp).state, Tick(code, s, inp).state;
            if r.exe.Some? then t.exe == r.exe
            else if BehindItsLoad(r) then t.exe == Some(BUBBLE) && t.id == r.id
            else if r.id.Some? then t.exe.Some? && SameInst(t.exe.value, r.id.value)
            else t.exe.None?
  {
    hide UpToExecute, ExecuteStage, FrontEnd, BehindItsLoad;
    FrontFills(code, AfterExe(s, inp).state, inp);
  }

  /** In reachable states the word in ID is real, and the load's register is the rd of its instruction. */
  lemma RealBehindLoads(code: Program, pc: Word, m: Memory, s: State, inp: Input)
    requires Reachable(code, pc, m, s) && Tick(code, s, inp).Ok?
    ensures AfterExe(s, inp).Ok?
    ensures var r, t := AfterExe(s, inp).state, Tick(code, s, inp).state;
            && (r.exe.None? && r.id.Some? && !BehindItsLoad(r) ==> Real(t.exe))
            && (r.mem.Some? && Loads(r.mem.value.inst.op) ==> r.mem.value.rd == Some(r.mem.value.inst.rd))
            && t.mem == r.mem
  {
    hide Reachable, Base, Ready, WillBeReady, UpToExecute, ExecuteStage, FrontEnd, BehindItsLoad, Step;
    var start := Isa.Initial(pc, m);
    ReachableKeeps(code, pc, m, s);
    var a := After(code, start, s.hpm.retired);
    UpToExecuteKeeps(code, s, inp, a);
    var u := UpToExecute(s, inp).state;
    ExecuteKeeps(code, u, Past(code, s.wb, a));
    var r := ExecuteStage(u).state;
    FrontFills(code, r, inp);
    FrontShape(code, r, inp);
    IdIsReal(code, r, Past(code, s.wb, a));
    LoadRd(code, r, Past(code, s.wb, a));
  }

  lemma LoadRd(code: Program, s: State, a: Arch)
    requires Base(code, s, a)
    ensures s.mem.Some? && Loads(s.mem.value.inst.op) ==> s.mem.value.rd == Some(s.mem.value.inst.rd)
  {
    hide Step, RegsOk, BusOk, WbOk, FetchOk, Chain, IdShape, ExeShape, RecoveryOk, Balanced, RegWriteAt, AccessAt, MicroOp.MemoryAccess;
  }
}
