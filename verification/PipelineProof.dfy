/** The pipeline against the one-instruction-at-a-time machine. The invariant numbers the real ops in flight:
    with `n` instructions retired, WB holds instruction n, MEM the next one, and EXE the one after, while ID and
    IF hold whatever the predictor made of the instructions before them. */
module PipelineProof {
  import opened Words
  import opened Isa
  import opened Uop
  import opened UopProof
  import opened Pipeline

  // ---------- Ops against instructions ----------

  predicate Real(o: Option<MicroOp>) {
    o.Some? && !o.value.placeholder
  }

  function Count(o: Option<MicroOp>): nat {
    if Real(o) then 1 else 0
  }

  /** `op` is the instruction the machine in state `a` executes next. */
  predicate IsNext(code: Program, op: MicroOp, a: Arch) {
    op.pc == a.pc && op.inst == code(a.pc) && !op.placeholder && a.pc % 4 == 0 && IsLegal(op.inst.op)
  }

  function RegOf(s: Option<Source>): Option<Reg> {
    if s.Some? then Some(s.value.reg) else None
  }

  /** `op` is its instruction decoded, whatever the values read so far. */
  predicate WellDecoded(op: MicroOp) {
    && IsLegal(op.inst.op)
    && (op.predicted.Some? <==> IsControl(op.inst.op))
    && var d := DecodeWith(Fetched(op.inst, op.pc, op.predicted), 0, 0);
       && op.(rs1 := None, rs2 := None) == d.(rs1 := None, rs2 := None)
       && RegOf(op.rs1) == RegOf(d.rs1) && RegOf(op.rs2) == RegOf(d.rs2)
  }

  predicate HasValue(s: Option<Source>, regs: RegFile) {
    s.Some? ==> s.value.value == regs[s.value.reg]
  }

  predicate HasOperands(op: MicroOp, regs: RegFile) {
    HasValue(op.rs1, regs) && HasValue(op.rs2, regs)
  }

  function RegWriteAt(code: Program, a: Arch): Option<Write> {
    var i := code(a.pc);
    RegWrite(i, a.pc, a.regs[i.rs1], a.regs[i.rs2], a.mem)
  }

  function AccessAt(code: Program, a: Arch): Option<Access> {
    var i := code(a.pc);
    AccessOf(i, a.regs[i.rs1], a.regs[i.rs2])
  }

  /** `op` left EXE with everything but the loaded value of a load. */
  predicate Executed(code: Program, op: MicroOp, a: Arch) {
    && IsNext(code, op, a)
    && op.MemoryAccess() == AccessAt(code, a)
    && (IsStore(op.inst.op) ==> op.rs2.Some?)
    && (if IsLoad(op.inst.op) then op.rd == Some(op.inst.rd) && op.rdValue == None
        else op.Writeback() == RegWriteAt(code, a))
  }

  /** `op` left MEM: it may retire as the next instruction of `a`. */
  predicate Retirable(code: Program, op: MicroOp, a: Arch) {
    IsNext(code, op, a) && !Traps(code, a) && op.Writeback() == RegWriteAt(code, a)
  }

  /** The successor pc as EXE computes it: JALR keeps the low bit of its sum. */
  function RawNext(code: Program, a: Arch): Word {
    var i := code(a.pc);
    var x, y := a.regs[i.rs1], a.regs[i.rs2];
    if Taken(i.op, x, y) && i.op.Jalr? then Wrap(x + i.imm) else NextPc(i, a.pc, x, y)
  }

  /** Whether the machine takes the control transfer at its pc. */
  predicate TakenAt(code: Program, a: Arch) {
    var i := code(a.pc);
    Taken(i.op, a.regs[i.rs1], a.regs[i.rs2])
  }

  lemma StepFacts(code: Program, a: Arch)
    requires !a.trapped && !Traps(code, a)
    ensures var b, access := Step(code, a), AccessAt(code, a);
            && !b.trapped
            && b.regs == WriteReg(a.regs, RegWriteAt(code, a))
            && b.mem == (if access.Some? then Perform(a.mem, access.value) else a.mem)
            && b.accesses == (if access.Some? then a.accesses + [access.value] else a.accesses)
            && b.halted == (a.halted || (code(a.pc).op.Ecall? && a.regs[10] == 0))
  {}

  /** The two successors differ only for a JALR to an address the fetch stage rejects. */
  lemma RawNextIsNext(code: Program, a: Arch)
    requires !a.trapped && !Traps(code, a)
    ensures RawNext(code, a) % 4 == 0 ==> Step(code, a).pc == RawNext(code, a)
  {
    hide Traps, RegWrite, WriteReg, AccessOf, Perform, Signed;
  }

  lemma ArithmeticMeaning(code: Program, op: MicroOp, a: Arch)
    requires IsNext(code, op, a) && WellDecoded(op) && HasOperands(op, a.regs)
    requires IsRegister(op.inst.op) || IsImmediate(op.inst.op)
    ensures AluOperands(op).Some?
    ensures var (x, y) := AluOperands(op).value;
            Executed(code, Uop.Compute(op, x, y), a)
  {
    hide AluResult, Isa.Compute, AluOpOf;
    var i := op.inst;
    if IsRegister(i.op) {
      AluMatchesIsa(i.op, a.regs[i.rs1], a.regs[i.rs2]);
    } else {
      AluMatchesIsa(RegisterForm(i.op), a.regs[i.rs1], i.imm);
      SameAlu(i.op);
    }
  }

  lemma SameAlu(op: Op)
    ensures AluOpOf(RegisterForm(op)) == AluOpOf(op)
    ensures IsImmediate(op) ==> IsRegister(RegisterForm(op))
  {
    FormOfForm(op);
    hide RegisterForm;
  }

  lemma FormOfForm(op: Op)
    ensures RegisterForm(RegisterForm(op)) == RegisterForm(op)
    ensures IsImmediate(op) ==> IsRegister(RegisterForm(op))
  {}

  lemma OtherMeaning(code: Program, op: MicroOp, a: Arch)
    requires IsNext(code, op, a) && WellDecoded(op) && HasOperands(op, a.regs)
    requires !IsRegister(op.inst.op) && !IsImmediate(op.inst.op)
    ensures op.inst.op.Ecall? ==> Executed(code, op, a)
    ensures !op.inst.op.Ecall? ==> AluOperands(op).Some?
    ensures !op.inst.op.Ecall? ==>
              var (x, y) := AluOperands(op).value;
              Executed(code, Uop.Compute(op, x, y), a)
  {
    hide Isa.Compute, AluOpOf;
  }

  /** Decode and execute produce exactly the instruction's effect, given the right operands. */
  lemma ExecuteMeaning(code: Program, op: MicroOp, a: Arch)
    requires IsNext(code, op, a) && WellDecoded(op) && HasOperands(op, a.regs)
    ensures op.inst.op.Ecall? ==> Executed(code, op, a)
    ensures !op.inst.op.Ecall? ==> AluOperands(op).Some?
    ensures !op.inst.op.Ecall? ==>
              var (x, y) := AluOperands(op).value;
              Executed(code, Uop.Compute(op, x, y), a)
  {
    if IsRegister(op.inst.op) || IsImmediate(op.inst.op) {
      ArithmeticMeaning(code, op, a);
    } else {
      OtherMeaning(code, op, a);
    }
    hide Uop.Compute, Executed, WellDecoded, HasOperands, AluOperands;
  }

  /** EXE resolves a control transfer to the instruction's own successor. */
  lemma ResolveMeaning(code: Program, op: MicroOp, a: Arch)
    requires IsNext(code, op, a) && WellDecoded(op) && HasOperands(op, a.regs) && IsControl(op.inst.op)
    ensures AluOperands(op).Some?
    ensures var (x, y) := AluOperands(op).value;
            var done := Uop.Compute(op, x, y);
            var taken := BranchTaken(op.inst.op, ValueOf(done.rs1), ValueOf(done.rs2));
            var r := Resolution(op.pc, op.predicted.value, done.aluResult);
            && taken == Some(TakenAt(code, a))
            && r.Destination(taken.value) == RawNext(code, a)
            && (!r.NeedsRecovery(taken.value) ==> PredictedNext(op) == RawNext(code, a))
  {
    TargetMeaning(code, op, a);
    TakenMeaning(code, op, a);
    hide WellDecoded, HasOperands, AluOperands, BranchTaken, Taken, Wrap, AluResult;
  }

  /** The ALU computes the target. */
  lemma TargetMeaning(code: Program, op: MicroOp, a: Arch)
    requires IsNext(code, op, a) && WellDecoded(op) && HasOperands(op, a.regs) && IsControl(op.inst.op)
    ensures AluOperands(op).Some? && op.predicted.Some?
    ensures var (x, y) := AluOperands(op).value;
            var target := if op.inst.op.Jalr? then Wrap(a.regs[op.inst.rs1] + op.inst.imm) else Wrap(op.pc + op.inst.imm);
            AluResult(op.aluOp, x, y) == target
  {
    hide Signed, Pow2, Wrap;
  }

  /** EXE decides as the manual does. */
  lemma TakenMeaning(code: Program, op: MicroOp, a: Arch)
    requires IsNext(code, op, a) && WellDecoded(op) && HasOperands(op, a.regs) && IsControl(op.inst.op)
    ensures BranchTaken(op.inst.op, ValueOf(op.rs1), ValueOf(op.rs2)) ==
              Some(Taken(op.inst.op, a.regs[op.inst.rs1], a.regs[op.inst.rs2]))
  {
    hide Signed;
  }

  lemma StraightLine(code: Program, op: MicroOp, a: Arch)
    requires IsNext(code, op, a) && WellDecoded(op) && !IsControl(op.inst.op)
    ensures PredictedNext(op) == RawNext(code, a)
  {}

  // ---------- The invariant ----------

  /** The machine once the op in a stage, if there is a real one, has executed. */
  function Past(code: Program, o: Option<MicroOp>, a: Arch): Arch {
    if Real(o) then Step(code, a) else a
  }

  /** The architectural state is that of the machine before the op in WB. */
  predicate RegsOk(regs: RegFile, halt: bool, a: Arch) {
    regs == a.regs && a.regs[0] == 0 && halt == a.halted && !a.trapped
  }

  predicate WbOk(code: Program, wb: Option<MicroOp>, a: Arch) {
    wb.Some? ==> if wb.value.placeholder then wb.value == BUBBLE else Retirable(code, wb.value, a)
  }

  predicate MemOk(code: Program, mem: Option<MicroOp>, a: Arch) {
    mem.Some? ==> if mem.value.placeholder then mem.value == BUBBLE else Executed(code, mem.value, a)
  }

  /** The data accesses made so far are those before the op in MEM, and its own once it was accepted. */
  predicate BusOk(txn: Transaction, bus: Bus, mem: Option<MicroOp>, a: Arch) {
    match txn
    case TxnIdle => bus == Bus(a.mem, a.accesses)
    case TxnSending(access) =>
      && bus == Bus(a.mem, a.accesses)
      && Real(mem) && mem.value.MemoryAccess() == Some(access)
    case TxnWaiting(access, bytes) =>
      && bus == Bus(Perform(a.mem, access), a.accesses + [access])
      && Real(mem) && mem.value.MemoryAccess() == Some(access)
      && Aligned(access) && bytes == BytesAt(a.mem, access.addr, Len(access.width))
    case TxnComplete(_) => false
  }

  predicate IdShape(code: Program, id: Option<MicroOp>) {
    id.Some? ==>
      var op := id.value;
      && op == Fetched(code(op.pc), op.pc, op.predicted)
      && op.pc % 4 == 0 && !op.inst.op.Fence?
      && (op.predicted.Some? <==> IsControlOpcode(OpcodeOf(op.inst.op)))
  }

  predicate ExeShape(code: Program, exe: Option<MicroOp>) {
    exe.Some? ==>
      var op := exe.value;
      || op == BUBBLE
      || (WellDecoded(op) && !op.placeholder && op.pc % 4 == 0 && op.inst == code(op.pc))
  }

  predicate FetchOk(code: Program, ifBuffer: Option<Inst>, fetch: FetchState, ifPc: Word) {
    && (ifBuffer.Some? ==> ifBuffer.value == code(ifPc))
    && (!fetch.FetchIdle? ==> fetch.addr == ifPc && ifPc % 4 == 0)
  }

  /** A pending recovery: MEM holds the mispredicted branch, and recovery will fetch its successor. */
  predicate RecoveryOk(code: Program, s: State, a: Arch) {
    s.recover ==>
      && Real(s.mem) && IsControl(s.mem.value.inst.op)
      && s.destination == RawNext(code, a)
      && s.correctDirection == TakenAt(code, a)
      && s.flushDepth == 3
      && (s.exe.Some? ==> !s.exe.value.placeholder)
  }

  /** EXE holds the next instruction, and ID and IF follow the prediction made for it; an empty EXE leaves
      ID, or IF when ID is empty too, at the next instruction. */
  predicate Chain(ifPc: Word, id: Option<MicroOp>, exe: Option<MicroOp>, a: Arch) {
    && (id.Some? ==> ifPc == PredictedNext(id.value))
    && var next := if id.Some? then id.value.pc else ifPc;
       if Real(exe) then exe.value.pc == a.pc && next == PredictedNext(exe.value)
       else next % 4 == 0 ==> next == a.pc
  }

  /** Conservation of instructions, and two flushed slots for every recovery that has happened. */
  predicate Balanced(s: State) {
    && s.hpm.fetched == s.hpm.retired + s.hpm.flushedOps
                        + Count(s.id) + Count(s.exe) + Count(s.mem) + Count(s.wb)
    && s.hpm.flushes + (if s.recover then 2 else 0) == 2 * s.hpm.misses
  }

  /** EXE, ID and IF are to continue after the op in MEM: no recovery is pending, and that op does not trap. */
  predicate Follows(code: Program, s: State, a: Arch) {
    !s.recover && !Past(code, s.mem, Past(code, s.wb, a)).trapped
  }

  /** Every stage holds what it should, where `a` is the machine before the op in WB. */
  predicate Base(code: Program, s: State, a: Arch) {
    && RegsOk(s.regs, s.halt, a)
    && WbOk(code, s.wb, a)
    && MemOk(code, s.mem, Past(code, s.wb, a))
    && BusOk(s.txn, s.bus, s.mem, Past(code, s.wb, a))
    && FetchOk(code, s.ifBuffer, s.fetch, s.ifPc)
    && IdShape(code, s.id)
    && ExeShape(code, s.exe)
    && RecoveryOk(code, s, Past(code, s.wb, a))
    && (Follows(code, s, a) ==> Chain(s.ifPc, s.id, s.exe, Past(code, s.mem, Past(code, s.wb, a))))
    && Balanced(s)
  }

  predicate Reads(op: MicroOp, r: Reg) {
    (op.rs1.Some? && op.rs1.value.reg == r) || (op.rs2.Some? && op.rs2.value.reg == r)
  }

  /** The op in EXE does not wait for the load in MEM. */
  predicate NoLoadUse(exe: MicroOp, mem: Option<MicroOp>) {
    (mem.Some? && mem.value.IsLoadOp() && mem.value.rd.Some? && mem.value.rd.value != 0) ==>
      !Reads(exe, mem.value.rd.value)
  }

  /** The registers the op in EXE should read. */
  function ExeRegs(code: Program, s: State, a: Arch): RegFile {
    Past(code, s.mem, Past(code, s.wb, a)).regs
  }

  /** Operand correctness within a cycle: the op in EXE holds the values its instruction reads. */
  predicate Ready(code: Program, s: State, a: Arch) {
    Follows(code, s, a) && Real(s.exe) ==>
      HasOperands(s.exe.value, ExeRegs(code, s, a)) && NoLoadUse(s.exe.value, s.mem)
  }

  /** Operand correctness between cycles: forwarding will supply those values. */
  predicate WillBeReady(code: Program, s: State, a: Arch) {
    Follows(code, s, a) && Real(s.exe) ==>
      HasOperands(Forwarded(s.exe.value, s.wb, s.mem), ExeRegs(code, s, a)) && NoLoadUse(s.exe.value, s.mem)
  }

  predicate Invariant(code: Program, start: Arch, s: State) {
    var a := After(code, start, s.hpm.retired);
    Base(code, s, a) && WillBeReady(code, s, a)
  }

  // ---------- What each stage keeps ----------

  lemma ControlStep(code: Program, op: MicroOp, a: Arch)
    requires !a.trapped && Executed(code, op, a) && IsControl(op.inst.op)
    ensures !Step(code, a).trapped
    ensures RawNext(code, a) % 4 == 0 ==> Step(code, a).pc == RawNext(code, a)
    ensures Step(code, a).mem == a.mem && Step(code, a).accesses == a.accesses
  {
    assert AccessAt(code, a) == None;
    StepFacts(code, a);
    RawNextIsNext(code, a);
  }

  /** The op in WB does not trap, so the machine reaches the op in MEM untrapped, with WB's result. */
  lemma WbDone(code: Program, regs: RegFile, halt: bool, wb: Option<MicroOp>, a: Arch)
    requires RegsOk(regs, halt, a) && WbOk(code, wb, a)
    ensures var b := Past(code, wb, a);
            && !b.trapped && b.regs[0] == 0
            && b.regs == (if wb.Some? then WriteReg(regs, wb.value.Writeback()) else regs)
            && b.halted == (halt || (wb.Some? && wb.value.inst.op.Ecall? && regs[10] == 0))
  {
    hide Traps, RegWriteAt, Step;
    if Real(wb) {
      StepFacts(code, a);
    }
  }

  /** Recovery from depth 3 empties ID and EXE and restarts fetch. */
  lemma RecoverEffect(s: State)
    requires s.recover && s.flushDepth == 3 && s.mem.Some?
    ensures Recover(s) == Ok(s.(
              ifPc := s.destination, fetch := FetchIdle, ifBuffer := None, id := None, exe := None, recover := false,
              hpm := s.hpm.Flush(s.id.Some?).Flush(s.exe.Some?)))
  {}

  lemma RecoverKeeps(code: Program, s: State, a: Arch)
    requires Base(code, s, a) && WillBeReady(code, s, a)
    ensures var r := Recover(s);
            && r.Ok? && !r.state.recover && Base(code, r.state, a) && WillBeReady(code, r.state, a)
            && (s.recover ==> r.state.ifPc == RawNext(code, Past(code, s.wb, a)) && r.state.exe.None?)
  {
    hide RawNext, Step, RegsOk, WbOk, BusOk, WellDecoded, HasOperands, PredictedNext, Executed;
    if s.recover {
      RecoverEffect(s);
      WbDone(code, s.regs, s.halt, s.wb, a);
      ControlStep(code, s.mem.value, Past(code, s.wb, a));
      hide Recover;
    }
  }

  lemma ForwardShape(op: MicroOp, producer: Option<MicroOp>)
    ensures op == BUBBLE ==> ForwardFrom(op, producer) == BUBBLE
    ensures WellDecoded(op) ==> WellDecoded(ForwardFrom(op, producer))
    ensures var f := ForwardFrom(op, producer);
            && f == op.(rs1 := f.rs1, rs2 := f.rs2)
            && RegOf(f.rs1) == RegOf(op.rs1) && RegOf(f.rs2) == RegOf(op.rs2)
  {
    hide DecodeWith;
  }

  lemma ForwardKeeps(code: Program, s: State, a: Arch)
    requires Base(code, s, a) && WillBeReady(code, s, a) && !s.recover
    ensures var t := Forward(s);
            Base(code, t, a) && Ready(code, t, a) && !t.recover
  {
    hide RegsOk, WbOk, MemOk, BusOk, WellDecoded, HasOperands, ForwardFrom, MicroOp.MemoryAccess, Step;
    if s.exe.Some? {
      ForwardShape(s.exe.value, s.wb);
      ForwardShape(ForwardFrom(s.exe.value, s.wb), s.mem);
    }
  }

  lemma WriteBackKeeps(code: Program, s: State, a: Arch)
    requires Base(code, s, a) && Ready(code, s, a) && !s.recover
    ensures var t := WriteBack(s);
            && Base(code, t, Past(code, s.wb, a)) && Ready(code, t, Past(code, s.wb, a))
            && !t.recover && t.wb.None?
  {
    hide MemOk, BusOk, WellDecoded, HasOperands, MicroOp.MemoryAccess, Chain, ExeShape, IdShape,
      FetchOk, WriteReg, NoLoadUse, Step, Retirable;
    WbDone(code, s.regs, s.halt, s.wb, a);
  }

  // ---------- MEM ----------

  lemma AlignedBytes(m: Memory, access: Access)
    requires Aligned(access)
    ensures |BytesAt(m, access.addr, Len(access.width))| == Len(access.width)
  {}

  /** A finished load hands over the value the instruction loads. */
  lemma LoadedMeaning(m: Memory, access: Access)
    requires Aligned(access) && access.Load?
    ensures Loaded(access, BytesAt(m, access.addr, Len(access.width))) == Some(LoadValue(m, access))
  {
    AlignedBytes(m, access);
    LoadedValueMatchesIsa(access, BytesAt(m, access.addr, Len(access.width)));
  }

  /** The progress of one data access, seen from the machine about to execute it: the request is accepted at
      most once, aligned, and completes with the loaded value. */
  lemma ProgressMeaning(code: Program, txn: Transaction, bus: Bus, op: MicroOp, a: Arch, accept: bool, done: bool)
    requires !op.placeholder && op.MemoryAccess().Some? && BusOk(txn, bus, Some(op), a)
    ensures match Progress(txn, bus, op.MemoryAccess().value, accept, done)
            case Misaligned => !Aligned(op.MemoryAccess().value)
            case Progressed(txn', bus', Pending) => BusOk(txn', bus', Some(op), a)
            case Progressed(txn', bus', Complete(loaded)) =>
              var access := op.MemoryAccess().value;
              && Aligned(access)
              && bus' == Bus(Perform(a.mem, access), a.accesses + [access])
              && loaded == (if access.Load? then Some(LoadValue(a.mem, access)) else None)
  {
    hide MicroOp.MemoryAccess, LoadValue, Perform, BytesAt, LoadedValue;
    var access := op.MemoryAccess().value;
    if Aligned(access) && access.Load? {
      LoadedMeaning(a.mem, access);
    }
  }

  /** A load or store whose access was performed may retire, and the machine's memory is the bus's. */
  lemma AccessStep(code: Program, op: MicroOp, a: Arch)
    requires !a.trapped && Executed(code, op, a) && op.MemoryAccess().Some? && Aligned(op.MemoryAccess().value)
    ensures var access := op.MemoryAccess().value;
            var done := if access.Load? then op.(rdValue := Some(LoadValue(a.mem, access))) else op;
            && Retirable(code, done, a)
            && Step(code, a).mem == Perform(a.mem, access)
            && Step(code, a).accesses == a.accesses + [access]
  {
    hide Step, LoadValue, Perform, BytesAt;
    StepFacts(code, a);
  }

  lemma PlainStep(code: Program, op: MicroOp, a: Arch)
    requires !a.trapped && Executed(code, op, a) && op.MemoryAccess().None?
    ensures Retirable(code, op, a) && Step(code, a).mem == a.mem && Step(code, a).accesses == a.accesses
  {
    hide Step;
    StepFacts(code, a);
  }

  /** MEM hands over an op that may retire. */
  lemma LeaveKeeps(code: Program, s: State, op: MicroOp, bus: Bus, a: Arch)
    requires Base(code, s, a) && Ready(code, s, a) && !s.recover && s.wb.None?
    requires s.mem.Some? && op.placeholder == s.mem.value.placeholder
    requires WbOk(code, Some(op), a)
    requires bus == Bus(Past(code, s.mem, a).mem, Past(code, s.mem, a).accesses)
    ensures var t := s.(txn := TxnIdle, bus := bus, wb := Some(op), mem := None);
            Base(code, t, a) && Ready(code, t, a) && !t.recover
  {
    hide RegsOk, WbOk, WellDecoded, HasOperands, Chain, ExeShape, IdShape, FetchOk, Step, MicroOp.MemoryAccess;
  }

  lemma PendingKeeps(code: Program, s: State, txn: Transaction, bus: Bus, a: Arch)
    requires Base(code, s, a) && Ready(code, s, a) && !s.recover && s.wb.None?
    requires s.mem.Some? && BusOk(txn, bus, s.mem, a)
    ensures var t := s.(txn := txn, bus := bus);
            Base(code, t, a) && Ready(code, t, a) && !t.recover
  {
    hide RegsOk, BusOk, MemOk, WbOk, WellDecoded, HasOperands, Chain, ExeShape, IdShape, FetchOk, Step, NoLoadUse;
  }

  lemma MemFacts(code: Program, s: State, a: Arch)
    requires Base(code, s, a) && s.wb.None?
    ensures !a.trapped && MemOk(code, s.mem, a) && BusOk(s.txn, s.bus, s.mem, a)
  {}

  /** The op handed to WB once its access completed. */
  function WithLoaded(op: MicroOp, loaded: Option<Word>): MicroOp {
    if loaded.Some? then op.(rdValue := loaded) else op
  }

  lemma CompleteKeeps(code: Program, s: State, bus: Bus, loaded: Option<Word>, a: Arch)
    requires Base(code, s, a) && Ready(code, s, a) && !s.recover && s.wb.None?
    requires Real(s.mem) && s.mem.value.MemoryAccess().Some? && Aligned(s.mem.value.MemoryAccess().value)
    requires var access := s.mem.value.MemoryAccess().value;
             && bus == Bus(Perform(a.mem, access), a.accesses + [access])
             && loaded == (if access.Load? then Some(LoadValue(a.mem, access)) else None)
    ensures var t := s.(txn := TxnIdle, bus := bus, wb := Some(WithLoaded(s.mem.value, loaded)), mem := None);
            Base(code, t, a) && Ready(code, t, a)
  {
    MemFacts(code, s, a);
    AccessStep(code, s.mem.value, a);
    hide Base, Ready, Executed, Aligned, Perform, LoadValue, MicroOp.MemoryAccess, BusOk, Step;
    LeaveKeeps(code, s, WithLoaded(s.mem.value, loaded), bus, a);
  }

  lemma AccessKeeps(code: Program, s: State, inp: Input, a: Arch)
    requires Base(code, s, a) && Ready(code, s, a) && !s.recover && s.wb.None?
    requires Real(s.mem) && s.mem.value.MemoryAccess().Some?
    ensures match Progress(s.txn, s.bus, s.mem.value.MemoryAccess().value, inp.dataAccept, inp.dataDone)
            case Misaligned => true
            case Progressed(txn, bus, Pending) =>
              Base(code, s.(txn := txn, bus := bus), a) && Ready(code, s.(txn := txn, bus := bus), a)
            case Progressed(txn, bus, Complete(loaded)) =>
              var t := s.(txn := TxnIdle, bus := bus, wb := Some(WithLoaded(s.mem.value, loaded)), mem := None);
              Base(code, t, a) && Ready(code, t, a)
  {
    MemFacts(code, s, a);
    hide Base, Ready, Progress, Aligned, Perform, LoadValue, MicroOp.MemoryAccess, MemOk, BusOk;
    var access := s.mem.value.MemoryAccess().value;
    ProgressMeaning(code, s.txn, s.bus, s.mem.value, a, inp.dataAccept, inp.dataDone);
    match Progress(s.txn, s.bus, access, inp.dataAccept, inp.dataDone)
    case Misaligned =>
    case Progressed(txn, bus, Pending) => PendingKeeps(code, s, txn, bus, a);
    case Progressed(txn, bus, Complete(loaded)) => CompleteKeeps(code, s, bus, loaded, a);
  }

  lemma NoAccessKeeps(code: Program, s: State, a: Arch)
    requires Base(code, s, a) && Ready(code, s, a) && !s.recover && s.wb.None?
    requires s.mem.Some? && s.mem.value.MemoryAccess().None?
    ensures Base(code, LeaveMem(s), a) && Ready(code, LeaveMem(s), a)
  {
    MemFacts(code, s, a);
    hide Base, Ready, MicroOp.MemoryAccess, Executed, Step;
    if Real(s.mem) {
      PlainStep(code, s.mem.value, a);
    }
    LeaveKeeps(code, s, s.mem.value, s.bus, a);
  }

  lemma MemoryKeeps(code: Program, s: State, inp: Input, a: Arch)
    requires Base(code, s, a) && Ready(code, s, a) && !s.recover && s.wb.None?
    ensures match MemoryStage(s, inp)
            case Abort(p) => p == MisalignedData
            case Ok(t) => Base(code, t, a) && Ready(code, t, a) && !t.recover
  {
    hide Base, Ready, Progress, MicroOp.MemoryAccess, Executed, LeaveMem;
    if s.mem.Some? {
      MemFacts(code, s, a);
      BubbleExecutes();
      if s.mem.value.MemoryAccess().None? {
        NoAccessKeeps(code, s, a);
        KeepsRecover(s);
      } else {
        StoreHasValue(code, s.mem, a);
        AccessKeeps(code, s, inp, a);
        AccessLeaves(s, inp);
      }
    }
  }

  lemma KeepsRecover(s: State)
    ensures LeaveMem(s).recover == s.recover
  {}

  /** What MEM does with an access. */
  lemma AccessLeaves(s: State, inp: Input)
    requires s.mem.Some? && s.wb.None? && s.mem.value.MemoryAccess().Some?
    requires s.mem.value.MemoryAccess().value.Store? ==> s.mem.value.rs2.Some?
    ensures match Progress(s.txn, s.bus, s.mem.value.MemoryAccess().value, inp.dataAccept, inp.dataDone)
            case Misaligned => MemoryStage(s, inp) == Abort(MisalignedData)
            case Progressed(txn, bus, Pending) => MemoryStage(s, inp) == Ok(s.(txn := txn, bus := bus))
            case Progressed(txn, bus, Complete(loaded)) =>
              MemoryStage(s, inp) ==
                Ok(s.(txn := TxnIdle, bus := bus, wb := Some(WithLoaded(s.mem.value, loaded)), mem := None))
  {
    hide Progress, MicroOp.MemoryAccess;
  }

  lemma StoreHasValue(code: Program, mem: Option<MicroOp>, a: Arch)
    requires MemOk(code, mem, a) && mem.Some? && mem.value.MemoryAccess().Some?
    ensures !mem.value.placeholder
    ensures mem.value.MemoryAccess().value.Store? ==> mem.value.rs2.Some?
  {}

  // ---------- EXE ----------

  lemma BubbleExecutes()
    ensures AluOperands(BUBBLE) == Some((0, 0)) && Uop.Compute(BUBBLE, 0, 0) == BUBBLE
    ensures BUBBLE.MemoryAccess().None? && BUBBLE.Writeback().None? && BUBBLE.placeholder
  {}

  /** The op in EXE is the machine's next instruction, with its operands. */
  lemma ExeIsNext(code: Program, s: State, a: Arch)
    requires Base(code, s, a) && Ready(code, s, a) && !s.recover && s.mem.None? && Real(s.exe)
    ensures var b := Past(code, s.wb, a);
            && !b.trapped && s.txn.TxnIdle?
            && IsNext(code, s.exe.value, b) && WellDecoded(s.exe.value) && HasOperands(s.exe.value, b.regs)
            && (if s.id.Some? then s.id.value.pc else s.ifPc) == PredictedNext(s.exe.value)
  {
    hide DecodeWith, HasOperands, PredictedNext, Step;
    WbDone(code, s.regs, s.halt, s.wb, a);
  }

  /** A real op leaves EXE executed; `miss` says that ID and IF followed a wrong prediction. */
  lemma AdvanceKeeps(code: Program, s: State, op: MicroOp, miss: bool, t: State, a: Arch)
    requires Base(code, s, a) && Ready(code, s, a) && !s.recover && s.mem.None? && Real(s.exe)
    requires Executed(code, op, Past(code, s.wb, a))
    requires t.(countdown := s.countdown, correctDirection := s.correctDirection, destination := s.destination,
                flushDepth := s.flushDepth, recover := s.recover, hpm := s.hpm) == s.(mem := Some(op), exe := None)
    requires t.recover == miss
    requires t.hpm == s.hpm.(branches := t.hpm.branches, misses := if miss then s.hpm.misses + 1 else s.hpm.misses)
    requires miss ==> IsControl(op.inst.op) && t.flushDepth == 3 && t.destination == RawNext(code, Past(code, s.wb, a))
    requires miss ==> t.correctDirection == TakenAt(code, Past(code, s.wb, a))
    requires !miss ==> PredictedNext(s.exe.value) == RawNext(code, Past(code, s.wb, a))
    ensures Base(code, t, a)
  {
    hide RegsOk, WbOk, WellDecoded, HasOperands, PredictedNext, Step, RawNext, TakenAt, Traps, IdShape, FetchOk;
    ExeIsNext(code, s, a);
    var b := Past(code, s.wb, a);
    if !Step(code, b).trapped {
      TrapOrStep(code, b);
      RawNextIsNext(code, b);
    }
    hide Executed;
  }

  lemma TrapOrStep(code: Program, a: Arch)
    ensures Step(code, a).trapped <==> a.trapped || Traps(code, a)
  {}

  lemma CountdownKeeps(code: Program, s: State, countdown: Option<nat>, a: Arch)
    requires Base(code, s, a) && Ready(code, s, a)
    ensures Base(code, s.(countdown := countdown), a) && Ready(code, s.(countdown := countdown), a)
  {
    hide Executed, RegsOk, WbOk, MemOk, BusOk, HasOperands, Chain, IdShape, ExeShape, FetchOk, Step,
      RawNext, NoLoadUse;
  }

  lemma BubbleAdvances(code: Program, s: State, a: Arch)
    requires Base(code, s, a) && Ready(code, s, a) && !s.recover && s.mem.None? && s.exe == Some(BUBBLE)
    ensures Base(code, s.(mem := s.exe, exe := None), a)
  {
    BubbleExecutes();
    hide Executed, RegsOk, WbOk, HasOperands, IdShape, FetchOk, Step, RawNext, NoLoadUse, MicroOp.MemoryAccess,
      WellDecoded;
  }

  /** The whole effect of EXE on the real op in it once its operands are there. */
  lemma ComputeKeeps(code: Program, s: State, a: Arch)
    requires Base(code, s, a) && Ready(code, s, a) && !s.recover && s.mem.None? && Real(s.exe)
    requires !s.exe.value.inst.op.Ecall?
    ensures AluOperands(s.exe.value).Some?
    ensures var (x, y) := AluOperands(s.exe.value).value;
            var r := Resolve(s, Uop.Compute(s.exe.value, x, y));
            r.Ok? && Base(code, r.state, a) && r.state.exe.None?
  {
    var op, b := s.exe.value, Past(code, s.wb, a);
    ExeIsNext(code, s, a);
    ExecuteMeaning(code, op, b);
    var (x, y) := AluOperands(op).value;
    var done := Uop.Compute(op, x, y);
    assert done.inst == op.inst && done.pc == op.pc && done.predicted == op.predicted;
    var r := Resolve(s, done);
    if IsControl(op.inst.op) {
      assert op.predicted.Some?;
      ResolveMeaning(code, op, b);
    } else {
      StraightLine(code, op, b);
    }
    hide Base, Ready, Uop.Compute, AluOperands, WellDecoded, HasOperands, IsNext, Executed, PredictedNext,
      RawNext, Step, BranchTaken, TakenAt;
    AdvanceKeeps(code, s, done, r.state.recover, r.state, a);
  }

  lemma RealShape(code: Program, s: State, a: Arch)
    requires Base(code, s, a) && s.exe.Some? && s.exe.value.placeholder
    ensures s.exe == Some(BUBBLE)
  {}

  lemma EcallKeeps(code: Program, s: State, a: Arch)
    requires Base(code, s, a) && Ready(code, s, a) && !s.recover && s.mem.None? && Real(s.exe)
    requires s.exe.value.inst.op.Ecall?
    ensures Base(code, s.(mem := s.exe, exe := None), a)
  {
    ExeIsNext(code, s, a);
    ExecuteMeaning(code, s.exe.value, Past(code, s.wb, a));
    StraightLine(code, s.exe.value, Past(code, s.wb, a));
    hide Base, Ready, Executed, PredictedNext, RawNext, Step;
    AdvanceKeeps(code, s, s.exe.value, false, s.(mem := s.exe, exe := None), a);
  }

  lemma ExecuteKeeps(code: Program, s: State, a: Arch)
    requires Base(code, s, a) && Ready(code, s, a) && !s.recover
    ensures var r := ExecuteStage(s);
            && r.Ok? && Base(code, r.state, a) && Ready(code, r.state, a)
            && (r.state.recover ==> r.state.exe.None?)
  {
    hide Base, WellDecoded, HasOperands, Uop.Compute, Resolve;
    var s1 := s.(countdown := CountDown(s.countdown));
    CountdownKeeps(code, s, s1.countdown, a);
    if s1.mem.None? && s1.exe.Some? {
      var op := s1.exe.value;
      var stall := MExtensionStall(op.inst.op);
      CountdownKeeps(code, s1, stall, a);
      if op.placeholder {
        RealShape(code, s1, a);
        BubbleExecutes();
        BubbleAdvances(code, s1, a);
        ResolveBubble(s1);
      } else if op.inst.op.Ecall? {
        EcallKeeps(code, s1, a);
      } else {
        var s2 := s1.(countdown := if stall.Some? then None else s1.countdown);
        CountdownKeeps(code, s1, s2.countdown, a);
        ComputeKeeps(code, s2, a);
      }
    }
  }

  lemma ResolveBubble(s: State)
    ensures Resolve(s, BUBBLE) == Ok(s.(mem := Some(BUBBLE), exe := None))
  {}

  // ---------- ID: operands read from the register file and forwarded ----------

  /** A source read from `regs`, or read already from the result of both writes, is right once both writes
      have been forwarded to it. */
  lemma ForwardSource(src: Option<Source>, regs: RegFile, w1: Option<Write>, w2: Option<Write>)
    requires regs[0] == 0
    requires HasValue(src, regs) || HasValue(src, WriteReg(WriteReg(regs, w1), w2))
    ensures HasValue(ForwardTo(ForwardTo(src, w1), w2), WriteReg(WriteReg(regs, w1), w2))
  {}

  /** What the op in MEM has forwarded so far, against the registers it leaves: all of it unless it loads. */
  lemma MemEffect(code: Program, mem: Option<MicroOp>, b: Arch)
    requires MemOk(code, mem, b) && mem.Some? && !Past(code, mem, b).trapped
    ensures var c := Past(code, mem, b);
            if mem.value.IsLoadOp() then
              && mem.value.Writeback() == None && mem.value.rd.Some?
              && forall r: Reg :: r != mem.value.rd.value || r == 0 ==> c.regs[r] == b.regs[r]
            else c.regs == WriteReg(b.regs, mem.value.Writeback())
  {
    BubbleExecutes();
    hide Step, Isa.LoadValue, Isa.Compute;
    if Real(mem) {
      TrapOrStep(code, b);
      StepFacts(code, b);
    }
  }

  function WriteOf(o: Option<MicroOp>): Option<Write> {
    if o.Some? then o.value.Writeback() else None
  }

  lemma ForwardedSources(op: MicroOp, wb: Option<MicroOp>, mem: Option<MicroOp>)
    ensures Forwarded(op, wb, mem).rs1 == ForwardTo(ForwardTo(op.rs1, WriteOf(wb)), WriteOf(mem))
    ensures Forwarded(op, wb, mem).rs2 == ForwardTo(ForwardTo(op.rs2, WriteOf(wb)), WriteOf(mem))
  {
    hide MicroOp.Writeback;
  }

  /** Forwarding from WB and MEM completes operands read from the register file, and keeps complete ones. */
  lemma ForwardingCompletes(code: Program, s: State, op: MicroOp, a: Arch)
    requires Base(code, s, a) && Follows(code, s, a) && NoLoadUse(op, s.mem)
    requires HasOperands(op, s.regs) || HasOperands(op, ExeRegs(code, s, a))
    ensures HasOperands(Forwarded(op, s.wb, s.mem), ExeRegs(code, s, a))
  {
    hide WbOk, MemOk, Step, Balanced, RecoveryOk, Chain, IdShape, ExeShape, FetchOk, BusOk, Forwarded, ForwardTo,
      MicroOp.Writeback, MicroOp.IsLoadOp, WriteReg;
    var b, c := Past(code, s.wb, a), ExeRegs(code, s, a);
    WbDone(code, s.regs, s.halt, s.wb, a);
    var w1, w2 := WriteOf(s.wb), WriteOf(s.mem);
    NoWrite(s.regs, b.regs);
    assert b.regs == WriteReg(s.regs, w1);
    ForwardedSources(op, s.wb, s.mem);
    if s.mem.Some? {
      MemEffect(code, s.mem, b);
    }
    SourceCompletes(op.rs1, s, op, b.regs, c, w1, w2);
    SourceCompletes(op.rs2, s, op, b.regs, c, w1, w2);
  }

  lemma NoWrite(r: RegFile, q: RegFile)
    ensures WriteReg(r, None) == r && WriteReg(q, None) == q
  {}

  lemma SourceCompletes(src: Option<Source>, s: State, op: MicroOp, b: RegFile, c: RegFile,
                        w1: Option<Write>, w2: Option<Write>)
    requires s.regs[0] == 0 && (src == op.rs1 || src == op.rs2)
    requires w2 == WriteOf(s.mem) && NoLoadUse(op, s.mem)
    requires b == WriteReg(s.regs, w1)
    requires if s.mem.None? then c == b
             else if s.mem.value.IsLoadOp() then
               && w2 == None && s.mem.value.rd.Some?
               && forall r: Reg :: r != s.mem.value.rd.value || r == 0 ==> c[r] == b[r]
             else c == WriteReg(b, w2)
    requires HasValue(src, s.regs) || HasValue(src, c)
    ensures HasValue(ForwardTo(ForwardTo(src, w1), w2), c)
  {
    hide MicroOp.Writeback, MicroOp.IsLoadOp;
    NoWrite(s.regs, b);
    if src.Some? {
      assert src.value.reg != 0 ==> Reads(op, src.value.reg);
      assert WriteReg(b, w2)[src.value.reg] == c[src.value.reg];
      ForwardSource(src, s.regs, w1, w2);
    }
  }

  /** A decoded op reads only the register fields of its word, and none unless its opcode says so. */
  lemma DecodedReads(f: MicroOp, x: Word, y: Word, r: Reg)
    requires f.rs1.None? && f.rs2.None? && IsLegal(f.inst.op) && Reads(DecodeWith(f, x, y), r)
    ensures r == f.inst.rs1 || r == f.inst.rs2
    ensures OpcodeOf(f.inst.op) != None
    ensures var opcode := OpcodeOf(f.inst.op).value;
            !(opcode.OpJal? || opcode.OpLui? || opcode.OpAuipc? || opcode.OpMiscMem? || opcode.OpSystem?)
  {}

  lemma DecodeShape(f: MicroOp, x: Word, y: Word)
    requires IsLegal(f.inst.op) && f == Fetched(f.inst, f.pc, f.predicted)
    requires f.predicted.Some? <==> IsControlOpcode(OpcodeOf(f.inst.op))
    ensures var d := DecodeWith(f, x, y);
            && WellDecoded(d) && !d.placeholder && d.inst == f.inst && d.pc == f.pc && d.predicted == f.predicted
            && (d.rs1.Some? ==> d.rs1.value == Source(f.inst.rs1, x))
            && (d.rs2.Some? ==> d.rs2.value == Source(f.inst.rs2, y))
  {
    ControlOpcodes(f.inst.op);
    DecodeAnyValues(f, x, y);
    hide DecodeWith, IsControl, IsControlOpcode, OpcodeOf;
  }

  lemma ControlOpcodes(op: Op)
    requires IsLegal(op)
    ensures IsControlOpcode(OpcodeOf(op)) <==> IsControl(op)
  {}

  /** Decoding leaves the fetched fields alone, and only the sources depend on the values read. */
  lemma DecodeAnyValues(f: MicroOp, x: Word, y: Word)
    requires f == Fetched(f.inst, f.pc, f.predicted)
    ensures var d, o := DecodeWith(f, x, y), DecodeWith(f, 0, 0);
            && d.(rs1 := None, rs2 := None) == o.(rs1 := None, rs2 := None)
            && RegOf(d.rs1) == RegOf(o.rs1) && RegOf(d.rs2) == RegOf(o.rs2)
            && !d.placeholder && d.inst == f.inst && d.pc == f.pc && d.predicted == f.predicted
            && (d.rs1.Some? ==> d.rs1.value == Source(f.inst.rs1, x))
            && (d.rs2.Some? ==> d.rs2.value == Source(f.inst.rs2, y))
  {}

  /** The hazard check lets an op into EXE only if it does not read what the load in MEM will write. */
  lemma HazardChecked(s: State)
    requires LoadUseHazard(s) == Some(false) && s.id.Some? && s.exe.None? && IsLegal(s.id.value.inst.op)
    requires s.id.value.rs1.None? && s.id.value.rs2.None?
    ensures NoLoadUse(DecodeWith(s.id.value, s.regs[s.id.value.inst.rs1], s.regs[s.id.value.inst.rs2]), s.mem)
  {
    hide DecodeWith, MicroOp.IsLoadOp, OpcodeOf;
    var x, y := s.regs[s.id.value.inst.rs1], s.regs[s.id.value.inst.rs2];
    var d := DecodeWith(s.id.value, x, y);
    if s.mem.Some? && s.mem.value.rd.Some? && Reads(d, s.mem.value.rd.value) {
      DecodedReads(s.id.value, x, y, s.mem.value.rd.value);
    }
  }

  lemma HeldKeeps(code: Program, s: State, a: Arch)
    requires Base(code, s, a) && Ready(code, s, a)
    ensures WillBeReady(code, s, a)
  {
    hide Base, HasOperands, Forwarded, NoLoadUse, Step;
    if Follows(code, s, a) && Real(s.exe) {
      ForwardingCompletes(code, s, s.exe.value, a);
    }
  }

  lemma DecodeKeeps(code: Program, s: State, stall: bool, a: Arch)
    requires Base(code, s, a) && Ready(code, s, a) && LoadUseHazard(s) == Some(stall)
    requires s.recover ==> s.exe.None?
    ensures match DecodeStage(s, stall)
            case Abort(p) => p == IllegalInstruction
            case Ok(t) =>
              && Base(code, t, a) && WillBeReady(code, t, a)
              && (stall ==> t == s && t.exe.None? && !t.recover)
  {
    HeldKeeps(code, s, a);
    StallMeans(code, s, a);
    if s.exe.None? && s.id.Some? && !stall && IsLegal(s.id.value.inst.op) {
      EnterExe(code, s, a);
    }
    hide Base, WillBeReady, Ready, LoadUseHazard, DecodeWith;
  }

  lemma StallMeans(code: Program, s: State, a: Arch)
    requires Base(code, s, a)
    ensures LoadUseHazard(s) == Some(true) ==> s.exe.None? && !s.recover
  {
    hide Step, BusOk, Chain, IdShape, ExeShape, FetchOk, RawNext, OpcodeOf;
  }

  /** The decoded op takes its place in the invariant. */
  lemma EnterExeBase(code: Program, s: State, d: MicroOp, a: Arch)
    requires Base(code, s, a) && s.exe.None? && s.id.Some?
    requires WellDecoded(d) && !d.placeholder
    requires d.inst == s.id.value.inst && d.pc == s.id.value.pc && d.predicted == s.id.value.predicted
    ensures Base(code, s.(exe := Some(d), id := None), a)
  {
    hide Step, RegsOk, BusOk, WbOk, MemOk, FetchOk, WellDecoded, RawNext, OpcodeOf, IsControlOpcode;
  }

  lemma EnterExe(code: Program, s: State, a: Arch)
    requires Base(code, s, a) && LoadUseHazard(s) == Some(false)
    requires s.exe.None? && s.id.Some? && IsLegal(s.id.value.inst.op)
    ensures var d := DecodeWith(s.id.value, s.regs[s.id.value.inst.rs1], s.regs[s.id.value.inst.rs2]);
            var t := s.(exe := Some(d), id := None);
            Base(code, t, a) && WillBeReady(code, t, a)
  {
    var f := s.id.value;
    var x, y := s.regs[f.inst.rs1], s.regs[f.inst.rs2];
    var d := DecodeWith(f, x, y);
    var t := s.(exe := Some(d), id := None);
    IdIsFetched(code, s.id);
    DecodeShape(f, x, y);
    HazardChecked(s);
    EnterExeBase(code, s, d, a);
    hide Step, DecodeWith, WellDecoded, NoLoadUse, LoadUseHazard, Forwarded, Base, IdShape;
    if Follows(code, t, a) {
      assert HasOperands(d, t.regs);
      ForwardingCompletes(code, t, d, a);
    }
  }

  lemma IdIsFetched(code: Program, id: Option<MicroOp>)
    requires IdShape(code, id) && id.Some?
    ensures var f := id.value;
            && f == Fetched(f.inst, f.pc, f.predicted) && f.rs1.None? && f.rs2.None?
            && (f.predicted.Some? <==> IsControlOpcode(OpcodeOf(f.inst.op)))
  {
    hide OpcodeOf, IsControlOpcode;
  }

  // ---------- IF and the bubble ----------

  lemma FetchWaits(code: Program, s: State, fetch: FetchState, ifBuffer: Option<Inst>, a: Arch)
    requires Base(code, s, a) && WillBeReady(code, s, a) && FetchOk(code, ifBuffer, fetch, s.ifPc)
    ensures var t := s.(fetch := fetch, ifBuffer := ifBuffer);
            Base(code, t, a) && WillBeReady(code, t, a)
  {
    hide Step, BusOk, WbOk, MemOk, ExeShape, IdShape, RawNext, HasOperands, Forwarded, NoLoadUse, RegsOk, FetchOk, Chain;
  }

  lemma FetchLeaves(code: Program, s: State, prediction: Prediction, a: Arch)
    requires Base(code, s, a) && WillBeReady(code, s, a) && s.ifPc % 4 == 0
    ensures match LeaveFetch(s, prediction)
            case Abort(p) => p == FenceFetched
            case Ok(t) => && Base(code, t, a) && WillBeReady(code, t, a)
                          && t.exe == s.exe && t.recover == s.recover
  {
    hide Step, BusOk, WbOk, MemOk, ExeShape, RawNext, HasOperands, Forwarded, NoLoadUse, RegsOk, OpcodeOf, PredictedNext;
  }

  lemma FetchKeeps(code: Program, s: State, inp: Input, a: Arch)
    requires Base(code, s, a) && WillBeReady(code, s, a)
    ensures match FetchStage(code, s, inp)
            case Abort(p) => p == MisalignedFetch || p == FenceFetched
            case Ok(t) => && Base(code, t, a) && WillBeReady(code, t, a)
                          && t.exe == s.exe && t.recover == s.recover
  {
    assert FetchOk(code, s.ifBuffer, s.fetch, s.ifPc);
    hide Base, WillBeReady, LeaveFetch;
    var addr := if s.fetch.FetchIdle? then s.ifPc else s.fetch.addr;
    if addr % 4 == 0 {
      FetchWaits(code, s, FetchSending(addr), s.ifBuffer, a);
      FetchWaits(code, s, FetchWaiting(addr), s.ifBuffer, a);
      FetchWaits(code, s, s.fetch, Some(code(addr)), a);
      FetchLeaves(code, s.(ifBuffer := Some(code(addr))), inp.prediction, a);
    }
  }

  lemma BubbleKeeps(code: Program, s: State, a: Arch)
    requires Base(code, s, a) && WillBeReady(code, s, a) && s.exe.None? && !s.recover
    ensures Base(code, s.(exe := Some(BUBBLE)), a) && WillBeReady(code, s.(exe := Some(BUBBLE)), a)
  {
    hide Step, BusOk, WbOk, MemOk, RawNext, HasOperands, Forwarded, NoLoadUse, RegsOk, IdShape, FetchOk, PredictedNext;
  }

  lemma FrontEndKeeps(code: Program, s: State, inp: Input, a: Arch)
    requires Base(code, s, a) && Ready(code, s, a) && (s.recover ==> s.exe.None?)
    ensures match FrontEnd(code, s, inp)
            case Abort(p) => p == IllegalInstruction || p == MisalignedFetch || p == FenceFetched
            case Ok(t) => Base(code, t, a) && WillBeReady(code, t, a) && t.hpm.retired == s.hpm.retired
  {
    hide Base, Ready, WillBeReady, LoadUseHazard, DecodeStage, FetchStage;
    var hazard := LoadUseHazard(s);
    if hazard.Some? {
      DecodeKeeps(code, s, hazard.value, a);
      RetiredStays(code, s, hazard.value, inp);
      var r := DecodeStage(s, hazard.value);
      if r.Ok? {
        FetchKeeps(code, r.state, inp, a);
        var q := FetchStage(code, r.state, inp);
        if q.Ok? && hazard.value {
          BubbleKeeps(code, q.state, a);
        }
      }
    }
  }

  lemma RetiredStays(code: Program, s: State, stall: bool, inp: Input)
    ensures var r := DecodeStage(s, stall);
            r.Ok? ==>
              && r.state.hpm == s.hpm
              && var q := FetchStage(code, r.state, inp);
                 q.Ok? ==> q.state.hpm.retired == s.hpm.retired
  {}

  // ---------- One cycle ----------

  /** Up to EXE: the op in WB has retired, and the op in EXE is ready. */
  lemma UpToExecuteKeeps(code: Program, s: State, inp: Input, a: Arch)
    requires Base(code, s, a) && WillBeReady(code, s, a)
    ensures match UpToExecute(s, inp)
            case Abort(p) => p == MisalignedData
            case Ok(t) =>
              && Base(code, t, Past(code, s.wb, a)) && Ready(code, t, Past(code, s.wb, a)) && !t.recover
              && t.hpm.retired == s.hpm.retired + Count(s.wb)
  {
    hide Base, Ready, WillBeReady, Recover, Forward, MemoryStage, Step;
    var s0 := s.(hpm := s.hpm.(cycles := s.hpm.cycles + 1));
    CyclesKeep(code, s, a);
    RecoverKeeps(code, s0, a);
    var s1 := Recover(s0).state;
    ForwardKeeps(code, s1, a);
    var s2 := Forward(s1);
    OpenKeepsWb(code, s0, a);
    WriteBackKeeps(code, s2, a);
    MemoryKeeps(code, WriteBack(s2), inp, Past(code, s.wb, a));
    MemoryKeepsCount(WriteBack(s2), inp);
  }

  lemma CyclesKeep(code: Program, s: State, a: Arch)
    requires Base(code, s, a) && WillBeReady(code, s, a)
    ensures var t := s.(hpm := s.hpm.(cycles := s.hpm.cycles + 1));
            Base(code, t, a) && WillBeReady(code, t, a)
  {
    hide Executed, RegsOk, WbOk, MemOk, BusOk, HasOperands, Chain, IdShape, ExeShape, FetchOk, Step,
      RawNext, NoLoadUse, Forwarded;
  }

  lemma OpenKeepsWb(code: Program, s: State, a: Arch)
    requires Base(code, s, a)
    ensures var r := Recover(s);
            r.Ok? ==>
              && r.state.wb == s.wb && r.state.hpm.retired == s.hpm.retired
              && Forward(r.state).wb == s.wb && Forward(r.state).hpm.retired == s.hpm.retired
  {
    hide Step, BusOk, WbOk, MemOk, RegsOk, IdShape, FetchOk, ExeShape, Chain, RawNext, Forwarded;
  }

  lemma MemoryKeepsCount(s: State, inp: Input)
    ensures var r := MemoryStage(s, inp);
            r.Ok? ==> r.state.hpm == s.hpm
  {
    hide Progress, MicroOp.MemoryAccess;
  }

  /** Every cycle keeps the invariant, retires the op in WB, and aborts only where the instruction stream or a
      data address is at fault. */
  lemma TickKeeps(code: Program, start: Arch, s: State, inp: Input)
    requires Invariant(code, start, s)
    ensures match Tick(code, s, inp)
            case Abort(p) => p in {IllegalInstruction, FenceFetched, MisalignedFetch, MisalignedData}
            case Ok(t) => Invariant(code, start, t) && t.hpm.retired == s.hpm.retired + Count(s.wb)
  {
    hide Base, Ready, WillBeReady, UpToExecute, ExecuteStage, FrontEnd, Step;
    var a := After(code, start, s.hpm.retired);
    var b := Past(code, s.wb, a);
    UpToExecuteKeeps(code, s, inp, a);
    var r := UpToExecute(s, inp);
    if r.Ok? {
      ExecuteKeeps(code, r.state, b);
      ExecuteKeepsCount(r.state);
      var t := ExecuteStage(r.state).state;
      FrontEndKeeps(code, t, inp, b);
      assert b == After(code, start, s.hpm.retired + Count(s.wb));
    }
  }

  lemma ExecuteKeepsCount(s: State)
    ensures var r := ExecuteStage(s);
            r.Ok? ==> r.state.hpm.retired == s.hpm.retired
  {
    hide Uop.Compute, AluOperands, BranchTaken;
  }

  lemma InitialInvariant(code: Program, pc: Word, m: Memory)
    ensures Invariant(code, Isa.Initial(pc, m), Pipeline.Initial(pc, m))
  {
    hide Step, Forwarded;
  }
}
