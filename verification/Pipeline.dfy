/** One clock cycle of the five-stage pipeline (pipe.rs) as a function of the processor state and of what the
    instruction cache, the data cache and the branch predictor answer in that cycle. */
module Pipeline {
  import opened Words
  import opened Isa
  import opened Uop

  // ---------- Data accesses in MEM (memory_access.rs) ----------

  /** The data cache as the pipeline sees it: one flat memory that performs a request when it accepts it.
      At most one request is outstanding, so nobody can tell this from a later moment before `done`. */
  datatype Bus = Bus(mem: Memory, accepted: seq<Access>)

  datatype Transaction =
    | TxnIdle
    | TxnSending(access: Access)
    | TxnWaiting(access: Access, bytes: seq<Byte>)
    | TxnComplete(loaded: Option<Word>)

  datatype Status = Pending | Complete(loaded: Option<Word>)

  datatype Progressed = Progressed(txn: Transaction, bus: Bus, status: Status) | Misaligned

  /** The value a finished request hands to the op: the loaded value, or nothing for a store. */
  function Loaded(access: Access, bytes: seq<Byte>): Option<Word> {
    if access.Load? && |bytes| == Len(access.width) then Some(LoadedValue(access, bytes)) else None
  }

  function Send(bus: Bus, access: Access, accept: bool, done: bool): Progressed {
    if !Aligned(access) then Misaligned
    else if !accept then Progressed(TxnSending(access), bus, Pending)
    else
      var bytes := BytesAt(bus.mem, access.addr, Len(access.width));
      var bus' := Bus(Perform(bus.mem, access), bus.accepted + [access]);
      if done then
        Progressed(TxnComplete(Loaded(access, bytes)), bus', Complete(Loaded(access, bytes)))
      else
        Progressed(TxnWaiting(access, bytes), bus', Pending)
  }

  function Progress(txn: Transaction, bus: Bus, access: Access, accept: bool, done: bool): Progressed {
    match txn
    case TxnIdle => Send(bus, access, accept, done)
    case TxnSending(sent) => Send(bus, sent, accept, done)
    case TxnWaiting(sent, bytes) =>
      if done then Progressed(TxnComplete(Loaded(sent, bytes)), bus, Complete(Loaded(sent, bytes)))
      else Progressed(txn, bus, Pending)
    case TxnComplete(loaded) => Progressed(txn, bus, Complete(loaded))
  }

  // ---------- State ----------

  /** The performance counters (statistic.rs). */
  datatype Counters = Counters(
    cycles: nat, fetched: nat, retired: nat, branches: nat, misses: nat, flushes: nat, flushedOps: nat)
  {
    function Flush(valid: bool): Counters {
      this.(flushes := flushes + 1, flushedOps := if valid then flushedOps + 1 else flushedOps)
    }

    function SolveBranch(miss: bool): Counters {
      this.(branches := branches + 1, misses := if miss then misses + 1 else misses)
    }
  }

  datatype FetchState = FetchIdle | FetchSending(addr: Word) | FetchWaiting(addr: Word)

  datatype State = State(
    halt: bool,
    ifPc: Word,
    ifBuffer: Option<Inst>,
    regs: RegFile,
    id: Option<MicroOp>,
    exe: Option<MicroOp>,
    mem: Option<MicroOp>,
    wb: Option<MicroOp>,
    fetch: FetchState,
    txn: Transaction,
    recover: bool,
    correctDirection: bool,
    destination: Word,
    flushDepth: nat,
    countdown: Option<nat>,
    bus: Bus,
    hpm: Counters)

  /** What the caches and the predictor do in one cycle. Each answer is arbitrary. */
  datatype Input = Input(fetchAccept: bool, fetchDone: bool, dataAccept: bool, dataDone: bool, prediction: Prediction)

  /** Every place where the processor or the cache it calls would abort. */
  datatype Panic =
    | IllegalInstruction
    | FenceFetched
    | MisalignedFetch
    | MisalignedData
    | MissingBranch      // recovery with no op in MEM
    | MissingOperand     // an ALU operand register or a store value that decode did not set
    | MissingPrediction  // a control transfer without its prediction
    | BubbleOverlap      // a bubble inserted into an occupied EXE

  datatype Outcome = Ok(state: State) | Abort(panic: Panic)

  function Initial(pc: Word, mem: Memory): State {
    State(false, pc, None, seq(32, i => 0), None, None, None, None, FetchIdle, TxnIdle,
          false, false, 0, 0, None, Bus(mem, []), Counters(0, 0, 0, 0, 0, 0, 0))
  }

  // ---------- Branch recovery ----------

  function FlushId(s: State): State {
    if s.flushDepth >= 2 then s.(hpm := s.hpm.Flush(s.id.Some?), id := None) else s
  }

  function FlushExe(s: State): State {
    if s.flushDepth >= 3 then s.(hpm := s.hpm.Flush(s.exe.Some?), exe := None) else s
  }

  function FlushMem(s: State): State {
    if s.flushDepth >= 4 then s.(hpm := s.hpm.Flush(s.mem.Some?), mem := None, txn := TxnIdle) else s
  }

  function FlushWb(s: State): State {
    if s.flushDepth >= 5 then s.(hpm := s.hpm.Flush(s.wb.Some?), wb := None) else s
  }

  function Recover(s: State): Outcome {
    if !s.recover then Ok(s)
    else
      var s1 := s.(ifPc := s.destination, fetch := FetchIdle, ifBuffer := None);
      var s2 := FlushWb(FlushMem(FlushExe(FlushId(s1))));
      if s2.mem.None? then Abort(MissingBranch) else Ok(s2.(recover := false))
  }

  // ---------- Operand forwarding ----------

  function ForwardTo(src: Option<Source>, w: Option<Write>): Option<Source> {
    if src.Some? && w.Some? && src.value.reg != 0 && src.value.reg == w.value.rd then
      Some(Source(src.value.reg, w.value.value))
    else src
  }

  function ForwardFrom(op: MicroOp, producer: Option<MicroOp>): MicroOp {
    if producer.None? then op
    else op.(rs1 := ForwardTo(op.rs1, producer.value.Writeback()),
             rs2 := ForwardTo(op.rs2, producer.value.Writeback()))
  }

  /** WB forwards first, so the newer value in MEM wins. */
  function Forwarded(op: MicroOp, wb: Option<MicroOp>, mem: Option<MicroOp>): MicroOp {
    ForwardFrom(ForwardFrom(op, wb), mem)
  }

  function Forward(s: State): State {
    if s.exe.None? then s else s.(exe := Some(Forwarded(s.exe.value, s.wb, s.mem)))
  }

  // ---------- Stages ----------

  function WriteBack(s: State): State {
    if s.wb.None? then s
    else
      var op := s.wb.value;
      s.(halt := s.halt || (op.inst.op.Ecall? && s.regs[10] == 0),
         wb := None,
         regs := WriteReg(s.regs, op.Writeback()),
         hpm := if op.placeholder then s.hpm else s.hpm.(retired := s.hpm.retired + 1))
  }

  /** Hand the op in MEM to WB if WB is free. */
  function LeaveMem(s: State): State {
    if s.mem.None? || s.wb.Some? then s
    else s.(txn := TxnIdle, wb := s.mem, mem := None)
  }

  function MemoryStage(s: State, inp: Input): Outcome {
    if s.mem.None? then Ok(s)
    else
      var op := s.mem.value;
      var access := op.MemoryAccess();
      if access.None? then Ok(LeaveMem(s))
      else if access.value.Store? && op.rs2.None? then Abort(MissingOperand)
      else
        match Progress(s.txn, s.bus, access.value, inp.dataAccept, inp.dataDone)
        case Misaligned => Abort(MisalignedData)
        case Progressed(txn, bus, Pending) => Ok(s.(txn := txn, bus := bus))
        case Progressed(txn, bus, Complete(loaded)) =>
          var op' := if loaded.Some? then op.(rdValue := loaded) else op;
          Ok(LeaveMem(s.(txn := txn, bus := bus, mem := Some(op'))))
  }

  function CountDown(c: Option<nat>): Option<nat> {
    if c.Some? && c.value > 0 then Some(c.value - 1) else c
  }

  /** Resolve the control transfer `op`, computed already, and leave EXE. */
  function Resolve(s: State, op: MicroOp): Outcome {
    if !IsControl(op.inst.op) then Ok(s.(mem := Some(op), exe := None))
    else if op.predicted.None? then Abort(MissingPrediction)
    else
      var r := Resolution(op.pc, op.predicted.value, op.aluResult);
      var taken := BranchTaken(op.inst.op, ValueOf(op.rs1), ValueOf(op.rs2)).value;
      var miss := r.NeedsRecovery(taken);
      var s1 := s.(mem := Some(op), exe := None, hpm := s.hpm.SolveBranch(miss));
      Ok(if miss then
           s1.(recover := true, correctDirection := taken, destination := r.Destination(taken), flushDepth := 3)
         else s1)
  }

  function ExecuteStage(s: State): Outcome {
    var s1 := s.(countdown := CountDown(s.countdown));
    if s1.mem.Some? || s1.exe.None? then Ok(s1)
    else
      var op := s1.exe.value;
      var stall := MExtensionStall(op.inst.op);
      if op.inst.op.Ecall? then Ok(s1.(mem := s1.exe, exe := None))
      else if stall.Some? && s1.countdown.None? then Ok(s1.(countdown := stall))
      else
        match AluOperands(op)
        case None => Abort(MissingOperand)
        case Some((a, b)) =>
          Resolve(s1.(countdown := if stall.Some? then None else s1.countdown), Uop.Compute(op, a, b))
  }

  function OpcodeOf(op: Op): Option<Opcode> {
    if op.Illegal? then op.opcode
    else if op.Lui? then Some(OpLui)
    else if op.Auipc? then Some(OpAuipc)
    else if op.Jal? then Some(OpJal)
    else if op.Jalr? then Some(OpJalr)
    else if op.Fence? then Some(OpMiscMem)
    else if op.Ecall? then Some(OpSystem)
    else if IsBranch(op) then Some(OpBranch)
    else if IsLoad(op) then Some(OpLoad)
    else if IsStore(op) then Some(OpStore)
    else if IsImmediate(op) then Some(OpImm)
    else Some(OpReg)
  }

  predicate IsControlOpcode(opcode: Option<Opcode>) {
    opcode == Some(OpBranch) || opcode == Some(OpJal) || opcode == Some(OpJalr)
  }

  /** Load-use hazard of the op in ID: None where its opcode is unknown and the code aborts. The register
      fields are those of the raw word, whether or not the instruction reads them. */
  function LoadUseHazard(s: State): Option<bool> {
    if s.id.None? || s.exe.Some? || s.mem.None? then Some(false)
    else
      var load, inst := s.mem.value, s.id.value.inst;
      if !load.IsLoadOp() || load.rd.None? || load.rd == Some(0) then Some(false)
      else
        match OpcodeOf(inst.op)
        case None => None
        case Some(opcode) =>
          if opcode.OpJal? || opcode.OpLui? || opcode.OpAuipc? || opcode.OpMiscMem? || opcode.OpSystem? then Some(false)
          else Some((inst.rs1 != 0 && inst.rs1 == load.rd.value) || (inst.rs2 != 0 && inst.rs2 == load.rd.value))
  }

  function DecodeStage(s: State, stall: bool): Outcome {
    if s.exe.Some? || s.id.None? || stall then Ok(s)
    else
      match Decode(s.id.value, s.regs)
      case None => Abort(IllegalInstruction)
      case Some(op) => Ok(s.(exe := Some(op), id := None))
  }

  /** The word in the fetch buffer goes to ID, and the next fetch address is predicted. */
  function LeaveFetch(s: State, prediction: Prediction): Outcome {
    if s.id.Some? || s.ifBuffer.None? then Ok(s)
    else
      var inst := s.ifBuffer.value;
      if inst.op.Fence? then Abort(FenceFetched)
      else
        var predicted := if IsControlOpcode(OpcodeOf(inst.op)) then Some(prediction) else None;
        var op := Fetched(inst, s.ifPc, predicted);
        Ok(s.(ifBuffer := None, fetch := FetchIdle, id := Some(op), ifPc := PredictedNext(op),
              hpm := s.hpm.(fetched := s.hpm.fetched + 1)))
  }

  function FetchStage(code: Program, s: State, inp: Input): Outcome {
    var addr := if s.fetch.FetchIdle? then s.ifPc else s.fetch.addr;
    if !s.fetch.FetchWaiting? && addr % 4 != 0 then Abort(MisalignedFetch)
    else if !s.fetch.FetchWaiting? && !inp.fetchAccept then Ok(s.(fetch := FetchSending(addr)))
    else if !inp.fetchDone then Ok(s.(fetch := FetchWaiting(addr)))
    else LeaveFetch(s.(ifBuffer := Some(code(addr))), inp.prediction)
  }

  function InsertBubble(s: State, stall: bool): Outcome {
    if !stall then Ok(s)
    else if s.exe.Some? then Abort(BubbleOverlap)
    else Ok(s.(exe := Some(BUBBLE)))
  }

  // ---------- The clock ----------

  /** Recovery and forwarding, which open a cycle. */
  function Open(s: State): Outcome {
    match Recover(s.(hpm := s.hpm.(cycles := s.hpm.cycles + 1)))
    case Abort(p) => Abort(p)
    case Ok(s1) => Ok(Forward(s1))
  }

  /** Everything before EXE: recovery, forwarding, WB and MEM. */
  function UpToExecute(s: State, inp: Input): Outcome {
    match Open(s)
    case Abort(p) => Abort(p)
    case Ok(s1) => MemoryStage(WriteBack(s1), inp)
  }

  /** Everything after EXE: hazard check, ID, IF and the bubble. */
  function FrontEnd(code: Program, s: State, inp: Input): Outcome {
    match LoadUseHazard(s)
    case None => Abort(IllegalInstruction)
    case Some(stall) =>
      match DecodeStage(s, stall)
      case Abort(p) => Abort(p)
      case Ok(s1) =>
        match FetchStage(code, s1, inp)
        case Abort(p) => Abort(p)
        case Ok(s2) => InsertBubble(s2, stall)
  }

  function Tick(code: Program, s: State, inp: Input): Outcome {
    match UpToExecute(s, inp)
    case Abort(p) => Abort(p)
    case Ok(s1) =>
      match ExecuteStage(s1)
      case Abort(p) => Abort(p)
      case Ok(s2) => FrontEnd(code, s2, inp)
  }

  /** A run of the processor, one input per cycle; an abort ends it. */
  function Run(code: Program, s: State, inputs: seq<Input>): Outcome {
    if |inputs| == 0 then Ok(s)
    else
      match Run(code, s, inputs[..|inputs| - 1])
      case Abort(p) => Abort(p)
      case Ok(s') => Tick(code, s', inputs[|inputs| - 1])
  }
}
