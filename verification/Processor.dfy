/** The processor object (pipe.rs): its stages update the fields in place, in the order of the clock cycle. Each
    method is proved to take the fields to the state its stage function gives. */
module Processor {
  import opened Words
  import opened Isa
  import opened Uop
  import P = Pipeline
  import opened PipelineProof
  import PipelineTheorems

  class PipelineProcessor {
    const code: Program

    var halt: bool
    var ifPc: Word
    var ifBuffer: Option<Inst>
    var regs: RegFile
    var idOp: Option<MicroOp>
    var exeOp: Option<MicroOp>
    var memOp: Option<MicroOp>
    var wbOp: Option<MicroOp>
    var ifFsm: P.FetchState
    var transaction: P.Transaction
    var branchRecover: bool
    var branchCorrectDirection: bool
    var branchDestination: Word
    var branchFlushes: nat
    var mulDivCountdown: Option<nat>
    var bus: P.Bus
    var hpm: P.Counters

    function View(): P.State
      reads this
    {
      P.State(halt, ifPc, ifBuffer, regs, idOp, exeOp, memOp, wbOp, ifFsm, transaction, branchRecover,
              branchCorrectDirection, branchDestination, branchFlushes, mulDivCountdown, bus, hpm)
    }

    constructor (code: Program, pc: Word, m: Memory)
      ensures this.code == code
      ensures View() == P.Initial(pc, m)
    {
      this.code := code;
      halt, ifPc, ifBuffer, regs := false, pc, None, seq(32, i => 0);
      idOp, exeOp, memOp, wbOp := None, None, None, None;
      ifFsm, transaction := P.FetchIdle, P.TxnIdle;
      branchRecover, branchCorrectDirection, branchDestination, branchFlushes := false, false, 0, 0;
      mulDivCountdown, bus, hpm := None, P.Bus(m, []), P.Counters(0, 0, 0, 0, 0, 0, 0);
    }

    method FlushFront()
      modifies this
      ensures View() == P.FlushExe(P.FlushId(old(View())))
    {
      if branchFlushes >= 2 {
        hpm := hpm.Flush(idOp.Some?);
        idOp := None;
      }
      if branchFlushes >= 3 {
        hpm := hpm.Flush(exeOp.Some?);
        exeOp := None;
      }
    }

    method FlushBack()
      modifies this
      ensures View() == P.FlushWb(P.FlushMem(old(View())))
    {
      if branchFlushes >= 4 {
        hpm := hpm.Flush(memOp.Some?);
        memOp := None;
        transaction := P.TxnIdle;
      }
      if branchFlushes >= 5 {
        hpm := hpm.Flush(wbOp.Some?);
        wbOp := None;
      }
    }

    /** Branch recovery: restart fetch at the branch's successor and flush by depth. */
    method RecoverBranch() returns (panic: Option<P.Panic>)
      modifies this
      ensures panic == (match P.Recover(old(View())) case Ok(_) => None case Abort(p) => Some(p))
      ensures panic.None? ==> View() == P.Recover(old(View())).state
    {
      hide P.FlushId, P.FlushExe, P.FlushMem, P.FlushWb;
      panic := None;
      if branchRecover {
        ifPc := branchDestination;
        ifFsm := P.FetchIdle;
        ifBuffer := None;
        FlushFront();
        FlushBack();
        if memOp.None? {
          panic := Some(P.MissingBranch);
          return;
        }
        branchRecover := false;
      }
    }

    /** Forward the results in WB, then those in MEM, to the sources of the op in EXE. */
    method ResolveDataHazards()
      modifies this
      ensures View() == P.Forward(old(View()))
    {
      if exeOp.Some? && wbOp.Some? {
        exeOp := Some(P.ForwardFrom(exeOp.value, wbOp));
      }
      if exeOp.Some? && memOp.Some? {
        exeOp := Some(P.ForwardFrom(exeOp.value, memOp));
      }
    }

    method StageWb()
      modifies this
      ensures View() == P.WriteBack(old(View()))
    {
      if wbOp.None? {
        return;
      }
      var op := wbOp.value;
      if op.inst.op.Ecall? && regs[10] == 0 {
        halt := true;
      }
      wbOp := None;
      var write := op.Writeback();
      if write.Some? && write.value.rd != 0 {
        regs := regs[write.value.rd := write.value.value];
      }
      if !op.placeholder {
        hpm := hpm.(retired := hpm.retired + 1);
      }
    }

    /** The transaction finishes with the bytes the cache delivered. */
    method CompleteAccess(access: Access, bytes: seq<Byte>) returns (status: P.Status)
      modifies `transaction
      ensures status == P.Complete(P.Loaded(access, bytes)) && transaction == P.TxnComplete(P.Loaded(access, bytes))
    {
      var loaded := P.Loaded(access, bytes);
      transaction := P.TxnComplete(loaded);
      status := P.Complete(loaded);
    }

    /** Register the access at the data cache; no status where the cache's alignment check fails. */
    method SendAccess(access: Access, inp: P.Input) returns (status: Option<P.Status>)
      modifies `transaction, `bus
      ensures match P.Send(old(bus), access, inp.dataAccept, inp.dataDone)
              case Misaligned => status.None? && transaction == old(transaction) && bus == old(bus)
              case Progressed(txn, bus', st) => status == Some(st) && transaction == txn && bus == bus'
    {
      if !Aligned(access) {
        return None;
      }
      if !inp.dataAccept {
        transaction := P.TxnSending(access);
        return Some(P.Pending);
      }
      var bytes := BytesAt(bus.mem, access.addr, Len(access.width));
      bus := P.Bus(Perform(bus.mem, access), bus.accepted + [access]);
      if inp.dataDone {
        var st := CompleteAccess(access, bytes);
        return Some(st);
      }
      transaction := P.TxnWaiting(access, bytes);
      return Some(P.Pending);
    }

    method ProgressTransaction(access: Access, inp: P.Input) returns (status: Option<P.Status>)
      modifies `transaction, `bus
      ensures match P.Progress(old(transaction), old(bus), access, inp.dataAccept, inp.dataDone)
              case Misaligned => status.None? && transaction == old(transaction) && bus == old(bus)
              case Progressed(txn, bus', st) => status == Some(st) && transaction == txn && bus == bus'
    {
      hide P.Send, P.Loaded;
      match transaction {
        case TxnIdle => status := SendAccess(access, inp);
        case TxnSending(sent) => status := SendAccess(sent, inp);
        case TxnWaiting(sent, bytes) =>
          if inp.dataDone {
            var st := CompleteAccess(sent, bytes);
            status := Some(st);
          } else {
            status := Some(P.Pending);
          }
        case TxnComplete(loaded) => status := Some(P.Complete(loaded));
      }
    }

    /** One step of the data access of the op in MEM; a finished load materializes its value. */
    method ProgressAccess(access: Access, inp: P.Input) returns (status: Option<P.Status>)
      requires memOp.Some?
      modifies this
      ensures match P.Progress(old(transaction), old(bus), access, inp.dataAccept, inp.dataDone)
              case Misaligned => status.None? && View() == old(View())
              case Progressed(txn', bus', st) =>
                && status == Some(st)
                && View() == old(View()).(
                               txn := txn',
                               bus := bus',
                               mem := if st.Complete? && st.loaded.Some?
                                 then Some(old(memOp).value.(rdValue := st.loaded)) else old(memOp))
    {
      hide P.Progress;
      status := ProgressTransaction(access, inp);
      if status.Some? && status.value.Complete? && status.value.loaded.Some? {
        memOp := Some(memOp.value.(rdValue := status.value.loaded));
      }
    }

    /** Hand the op in MEM to WB unless WB is stalled. */
    method LeaveMem()
      modifies this
      ensures View() == P.LeaveMem(old(View()))
    {
      if memOp.Some? && wbOp.None? {
        transaction := P.TxnIdle;
        wbOp := memOp;
        memOp := None;
      }
    }

    method StageMem(inp: P.Input) returns (panic: Option<P.Panic>)
      modifies this
      ensures panic == (match P.MemoryStage(old(View()), inp) case Ok(_) => None case Abort(p) => Some(p))
      ensures panic.None? ==> View() == P.MemoryStage(old(View()), inp).state
    {
      hide P.Progress, MicroOp.MemoryAccess, P.LeaveMem;
      panic := None;
      if memOp.None? {
        return;
      }
      var access := memOp.value.MemoryAccess();
      if access.Some? {
        if access.value.Store? && memOp.value.rs2.None? {
          panic := Some(P.MissingOperand);
          return;
        }
        var status := ProgressAccess(access.value, inp);
        if status.None? {
          panic := Some(P.MisalignedData);
          return;
        }
        if status.value.Pending? {
          return;
        }
      }
      LeaveMem();
    }

    method StageExe() returns (panic: Option<P.Panic>)
      modifies this
      ensures panic == (match P.ExecuteStage(old(View())) case Ok(_) => None case Abort(p) => Some(p))
      ensures panic.None? ==> View() == P.ExecuteStage(old(View())).state
    {
      panic := None;
      if mulDivCountdown.Some? && mulDivCountdown.value > 0 {
        mulDivCountdown := Some(mulDivCountdown.value - 1);
      }
      if memOp.Some? || exeOp.None? {
        return;
      }
      var op := exeOp.value;
      if op.inst.op.Ecall? {
        memOp, exeOp := exeOp, None;
        return;
      }
      var stall := MExtensionStall(op.inst.op);
      if stall.Some? && mulDivCountdown.None? {
        mulDivCountdown := stall;
        return;
      }
      var operands := AluOperands(op);
      if operands.None? {
        panic := Some(P.MissingOperand);
        return;
      }
      op := Uop.Compute(op, operands.value.0, operands.value.1);
      if stall.Some? {
        mulDivCountdown := None;
      }
      panic := ResolveControl(op);
    }

    method StartRecovery(taken: bool, destination: Word)
      modifies this
      ensures View() == old(View()).(
                recover := true, correctDirection := taken, destination := destination, flushDepth := 3)
    {
      branchRecover := true;
      branchCorrectDirection := taken;
      branchDestination := destination;
      branchFlushes := 3;
    }

    /** Resolve a computed control transfer against its prediction, then hand the op to MEM. */
    method ResolveControl(op: MicroOp) returns (panic: Option<P.Panic>)
      modifies this
      ensures panic == (match P.Resolve(old(View()), op) case Ok(_) => None case Abort(p) => Some(p))
      ensures panic.None? ==> View() == P.Resolve(old(View()), op).state
    {
      hide BranchTaken, Resolution.NeedsRecovery, Resolution.Destination, IsControl;
      panic := None;
      BranchTakenDefined(op);
      if IsControl(op.inst.op) {
        if op.predicted.None? {
          panic := Some(P.MissingPrediction);
          return;
        }
        var r := Resolution(op.pc, op.predicted.value, op.aluResult);
        var taken := BranchTaken(op.inst.op, ValueOf(op.rs1), ValueOf(op.rs2)).value;
        var needRecover := r.NeedsRecovery(taken);
        if needRecover {
          StartRecovery(taken, r.Destination(taken));
        }
        hpm := hpm.SolveBranch(needRecover);
      }
      memOp, exeOp := Some(op), None;
    }

    method StageDecode(stall: bool) returns (panic: Option<P.Panic>)
      modifies this
      ensures panic == (match P.DecodeStage(old(View()), stall) case Ok(_) => None case Abort(p) => Some(p))
      ensures panic.None? ==> View() == P.DecodeStage(old(View()), stall).state
    {
      panic := None;
      if exeOp.Some? || idOp.None? || stall {
        return;
      }
      var decoded := Decode(idOp.value, regs);
      if decoded.None? {
        panic := Some(P.IllegalInstruction);
        return;
      }
      exeOp, idOp := decoded, None;
    }

    /** The fetched word goes to an empty ID, and the next fetch address is predicted. */
    method DeliverFetch(prediction: Prediction) returns (panic: Option<P.Panic>)
      modifies this
      ensures panic == (match P.LeaveFetch(old(View()), prediction) case Ok(_) => None case Abort(p) => Some(p))
      ensures panic.None? ==> View() == P.LeaveFetch(old(View()), prediction).state
    {
      hide P.OpcodeOf, P.IsControlOpcode, Fetched, PredictedNext;
      panic := None;
      if idOp.Some? || ifBuffer.None? {
        return;
      }
      var inst := ifBuffer.value;
      if inst.op.Fence? {
        panic := Some(P.FenceFetched);
        return;
      }
      var predicted := if P.IsControlOpcode(P.OpcodeOf(inst.op)) then Some(prediction) else None;
      var op := Fetched(inst, ifPc, predicted);
      hpm := hpm.(fetched := hpm.fetched + 1);
      idOp := Some(op);
      ifPc := PredictedNext(op);
      ifBuffer, ifFsm := None, P.FetchIdle;
    }

    method StageFetch(inp: P.Input) returns (panic: Option<P.Panic>)
      modifies this
      ensures panic == (match P.FetchStage(code, old(View()), inp) case Ok(_) => None case Abort(p) => Some(p))
      ensures panic.None? ==> View() == P.FetchStage(code, old(View()), inp).state
    {
      hide P.LeaveFetch;
      panic := None;
      var addr := if ifFsm.FetchIdle? then ifPc else ifFsm.addr;
      if !ifFsm.FetchWaiting? {
        if addr % 4 != 0 {
          panic := Some(P.MisalignedFetch);
          return;
        }
        if !inp.fetchAccept {
          ifFsm := P.FetchSending(addr);
          return;
        }
      }
      if !inp.fetchDone {
        ifFsm := P.FetchWaiting(addr);
        return;
      }
      ifBuffer := Some(code(addr));
      panic := DeliverFetch(inp.prediction);
    }

    /** The cycle up to MEM. */
    method OpenCycle(inp: P.Input) returns (panic: Option<P.Panic>)
      modifies this
      ensures panic == (match P.UpToExecute(old(View()), inp) case Ok(_) => None case Abort(p) => Some(p))
      ensures panic.None? ==> View() == P.UpToExecute(old(View()), inp).state
    {
      hide P.Recover, P.Forward, P.WriteBack, P.MemoryStage;
      hpm := hpm.(cycles := hpm.cycles + 1);
      panic := RecoverBranch();
      if panic.None? {
        ResolveDataHazards();
        StageWb();
        panic := StageMem(inp);
      }
    }

    /** The cycle from ID on: hazard check, ID, IF and the bubble. */
    method CloseCycle(inp: P.Input) returns (panic: Option<P.Panic>)
      modifies this
      ensures panic == (match P.FrontEnd(code, old(View()), inp) case Ok(_) => None case Abort(p) => Some(p))
      ensures panic.None? ==> View() == P.FrontEnd(code, old(View()), inp).state
    {
      hide P.LoadUseHazard, P.DecodeStage, P.FetchStage;
      var hazard := P.LoadUseHazard(View());
      if hazard.None? {
        return Some(P.IllegalInstruction);
      }
      panic := StageDecode(hazard.value);
      if panic.Some? {
        return;
      }
      panic := StageFetch(inp);
      if panic.Some? {
        return;
      }
      if hazard.value {
        if exeOp.Some? {
          panic := Some(P.BubbleOverlap);
          return;
        }
        exeOp := Some(BUBBLE);
      }
    }

    /** One clock cycle. An abort of the program leaves the object in whatever state it was in. */
    method Tick(inp: P.Input) returns (panic: Option<P.Panic>)
      modifies this
      ensures panic == (match P.Tick(code, old(View()), inp) case Ok(_) => None case Abort(p) => Some(p))
      ensures panic.None? ==> View() == P.Tick(code, old(View()), inp).state
    {
      hide P.UpToExecute, P.ExecuteStage, P.FrontEnd;
      panic := OpenCycle(inp);
      if panic.None? {
        panic := StageExe();
      }
      if panic.None? {
        panic := CloseCycle(inp);
      }
    }
  }

  lemma BranchTakenDefined(op: MicroOp)
    ensures IsControl(op.inst.op) ==> BranchTaken(op.inst.op, ValueOf(op.rs1), ValueOf(op.rs2)).Some?
  {}

  /** Drive a fresh processor until it halts, aborts or runs out of inputs. It completes `cycles` cycles of the run on
      these inputs and stops at the first that halts, or the first that aborts; what it returns is the state of the
      run then, which is the sequential machine after the instructions that retired. */
  method Simulate(code: Program, pc: Word, m: Memory, inputs: seq<P.Input>)
    returns (panic: Option<P.Panic>, cycles: nat, halted: bool, regs: RegFile, retired: nat)
    ensures cycles <= |inputs|
    ensures forall k :: 0 <= k < cycles ==> Unhalted(P.Run(code, P.Initial(pc, m), inputs[..k]))
    ensures panic.Some? ==>
              && panic.value in {P.IllegalInstruction, P.FenceFetched, P.MisalignedFetch, P.MisalignedData}
              && cycles < |inputs| && P.Run(code, P.Initial(pc, m), inputs[..cycles + 1]) == P.Abort(panic.value)
    ensures panic.None? ==>
              && (cycles == |inputs| || halted)
              && var r := P.Run(code, P.Initial(pc, m), inputs[..cycles]);
                 && r.Ok? && regs == r.state.regs && halted == r.state.halt && retired == r.state.hpm.retired
                 && var a := After(code, Isa.Initial(pc, m), retired);
                    !a.trapped && regs == a.regs && halted == a.halted
  {
    hide P.Tick, P.Run, Invariant;
    var cpu := new PipelineProcessor(code, pc, m);
    ghost var start := Isa.Initial(pc, m);
    InitialInvariant(code, pc, m);
    panic, cycles := None, 0;
    assert P.Run(code, P.Initial(pc, m), inputs[..0]) == P.Ok(P.Initial(pc, m)) by { RunNothing(code, P.Initial(pc, m), inputs); }
    while cycles < |inputs| && !cpu.halt
      invariant cycles <= |inputs|
      invariant cpu.code == code
      invariant P.Run(code, P.Initial(pc, m), inputs[..cycles]) == P.Ok(cpu.View())
      invariant forall k :: 0 <= k < cycles ==> Unhalted(P.Run(code, P.Initial(pc, m), inputs[..k]))
      invariant panic.None? && Invariant(code, start, cpu.View())
    {
      TickKeeps(code, start, cpu.View(), inputs[cycles]);
      RunPush(code, P.Initial(pc, m), inputs, cycles);
      panic := cpu.Tick(inputs[cycles]);
      if panic.Some? {
        return panic, cycles, cpu.halt, cpu.regs, cpu.hpm.retired;
      }
      cycles := cycles + 1;
    }
    PipelineTheorems.InvariantRegs(code, start, cpu.View());
    return None, cycles, cpu.halt, cpu.regs, cpu.hpm.retired;
  }

  predicate Unhalted(r: P.Outcome) {
    r.Ok? && !r.state.halt
  }

  lemma RunNothing(code: Program, s: P.State, inputs: seq<P.Input>)
    ensures P.Run(code, s, inputs[..0]) == P.Ok(s)
  {}

  lemma RunPush(code: Program, s: P.State, inputs: seq<P.Input>, n: nat)
    requires n < |inputs|
    ensures P.Run(code, s, inputs[..n + 1]) ==
              match P.Run(code, s, inputs[..n])
              case Abort(p) => P.Abort(p)
              case Ok(t) => P.Tick(code, t, inputs[n])
  {
    hide P.Tick;
    assert inputs[..n + 1][..n] == inputs[..n];
  }
}
