/** When exactly a cycle aborts for the word in ID, for the access in MEM and for a fetch, and what a fetch does otherwise
    (pipe.rs, memory_access.rs). */
module PipelineAborts {
  import opened Words
  import opened Isa
  import opened Uop
  import opened Pipeline
  import opened PipelineProof
  import opened PipelineTheorems
  import opened PipelineHazards

  // ---------- Illegal words ----------

  /** Decode is due for an illegal word, and no load-use stall puts it off; a word whose opcode is unknown is not even
      put off. */
  predicate IllegalDue(r: State) {
    && r.exe.None? && r.id.Some? && r.id.value.inst.op.Illegal?
    && !(r.id.value.inst.op.opcode.Some? && BehindItsLoad(r))
  }

  /** No FENCE ever reaches ID. */
  predicate NoFenceInId(r: State) {
    r.id.Some? ==> !r.id.value.inst.op.Fence?
  }

  lemma HazardUnknown(s: State)
    ensures LoadUseHazard(s).None? ==> s.exe.None? && s.id.Some? && s.id.value.inst.op.Illegal? && s.id.value.inst.op.opcode.None?
    ensures s.id.Some? && s.id.value.inst.op.Illegal? && s.id.value.inst.op.opcode.None? ==> LoadUseHazard(s) != Some(true)
  {
    hide MicroOp.IsLoadOp;
  }

  lemma DecodeAborts(s: State, stall: bool)
    ensures DecodeStage(s, stall) == Abort(IllegalInstruction) <==>
              s.exe.None? && s.id.Some? && !stall && (s.id.value.inst.op.Illegal? || s.id.value.inst.op.Fence?)
    ensures DecodeStage(s, stall).Abort? ==> DecodeStage(s, stall) == Abort(IllegalInstruction)
  {
    hide DecodeWith;
  }

  lemma FetchAborts(code: Program, s: State, inp: Input)
    ensures FetchStage(code, s, inp) != Abort(IllegalInstruction)
  {
    hide OpcodeOf, PredictedNext;
  }

  lemma FrontAborts(code: Program, r: State, inp: Input)
    requires NoFenceInId(r)
    ensures FrontEnd(code, r, inp) == Abort(IllegalInstruction) <==> IllegalDue(r)
  {
    hide LoadUseHazard, DecodeStage, FetchStage, BehindItsLoad;
    HazardUnknown(r);
    if LoadUseHazard(r).Some? {
      HazardIff(r);
      var stall := LoadUseHazard(r).value;
      DecodeAborts(r, stall);
      if DecodeStage(r, stall).Ok? {
        FetchAborts(code, DecodeStage(r, stall).state, inp);
      }
    }
  }

  lemma FenceStaysOut(code: Program, s: State, a: Arch)
    requires Base(code, s, a)
    ensures NoFenceInId(s)
  {
    hide Step, RegsOk, BusOk, WbOk, MemOk, FetchOk, Chain, ExeShape, RecoveryOk, Balanced, Past;
  }

  /** A cycle aborts on an illegal instruction exactly when decode is due for an illegal word. */
  lemma AbortsIffIllegal(code: Program, pc: Word, m: Memory, s: State, inp: Input)
    requires Reachable(code, pc, m, s)
    ensures Tick(code, s, inp) == Abort(IllegalInstruction) <==>
              AfterExe(s, inp).Ok? && IllegalDue(AfterExe(s, inp).state)
  {
    hide Reachable, Base, Ready, WillBeReady, UpToExecute, ExecuteStage, FrontEnd, IllegalDue, NoFenceInId, Step;
    ReachableKeeps(code, pc, m, s);
    var a := After(code, Isa.Initial(pc, m), s.hpm.retired);
    UpToExecuteKeeps(code, s, inp, a);
    if UpToExecute(s, inp).Ok? {
      var u := UpToExecute(s, inp).state;
      ExecuteKeeps(code, u, Past(code, s.wb, a));
      FenceStaysOut(code, ExecuteStage(u).state, Past(code, s.wb, a));
      FrontAborts(code, ExecuteStage(u).state, inp);
    }
  }

  // ---------- Misaligned accesses ----------

  predicate OffHalf(op: MicroOp) {
    (op.inst.op.Lh? || op.inst.op.Lhu? || op.inst.op.Sh?) && op.aluResult % 2 != 0
  }

  predicate OffWord(op: MicroOp) {
    (op.inst.op.Lw? || op.inst.op.Sw?) && op.aluResult % 4 != 0
  }

  lemma AlignedByWidth(op: MicroOp)
    ensures op.MemoryAccess().Some? ==> (!Aligned(op.MemoryAccess().value) <==> OffHalf(op) || OffWord(op))
    ensures OffHalf(op) || OffWord(op) ==> op.MemoryAccess().Some?
  {}

  /** A cycle aborts in MEM exactly when the op there is a halfword access at an odd address, or a word access at one
      that is no multiple of four. */
  lemma AbortsIffMisaligned(code: Program, pc: Word, m: Memory, s: State, inp: Input)
    requires Reachable(code, pc, m, s)
    ensures UpToExecute(s, inp).Abort? <==> s.mem.Some? && (OffHalf(s.mem.value) || OffWord(s.mem.value))
  {
    hide Reachable, Base, Ready, WillBeReady, Recover, MicroOp.MemoryAccess, OffHalf, OffWord, MemoryStage, Step;
    ReachableKeeps(code, pc, m, s);
    var a := After(code, Isa.Initial(pc, m), s.hpm.retired);
    var s0 := s.(hpm := s.hpm.(cycles := s.hpm.cycles + 1));
    CyclesKeep(code, s, a);
    RecoverKeeps(code, s0, a);
    var s1 := Recover(s0).state;
    ForwardKeeps(code, s1, a);
    OpenKeepsWb(code, s0, a);
    WriteBackKeeps(code, Forward(s1), a);
    MemAborts(code, WriteBack(Forward(s1)), inp, Past(code, s.wb, a));
    RecoverKeepsMem(code, s0, a);
    hide WriteBack, Forward;
  }

  lemma RecoverKeepsMem(code: Program, s: State, a: Arch)
    requires Base(code, s, a) && Recover(s).Ok?
    ensures WriteBack(Forward(Recover(s).state)).mem == s.mem
  {
    if s.recover {
      RecoverEffect(s) by { PendingDepth(code, s, a); }
    }
    hide Step, Base, WriteReg;
  }

  lemma PendingDepth(code: Program, s: State, a: Arch)
    requires Base(code, s, a) && s.recover
    ensures s.flushDepth == 3 && s.mem.Some?
  {
    hide Step, RegsOk, BusOk, WbOk, MemOk, FetchOk, Chain, IdShape, ExeShape, Balanced, RawNext;
  }

  lemma MemAborts(code: Program, s: State, inp: Input, a: Arch)
    requires Base(code, s, a) && s.wb.None?
    ensures MemoryStage(s, inp).Abort? <==> s.mem.Some? && (OffHalf(s.mem.value) || OffWord(s.mem.value))
  {
    MemFacts(code, s, a);
    hide Base, Executed, Step;
    if s.mem.Some? {
      AlignedByWidth(s.mem.value);
      if s.mem.value.MemoryAccess().Some? {
        StoreHasValue(code, s.mem, a);
      }
    }
    hide MicroOp.MemoryAccess, OffHalf, OffWord, MemOk, Aligned, Perform, BytesAt;
  }

  // ---------- Fetches ----------

  /** The address IF is after. */
  function FetchAddr(r: State): Word {
    if r.fetch.FetchIdle? then r.ifPc else r.fetch.addr
  }

  /** The word has arrived in this cycle: it was waited for, or its request was accepted, and it is done. */
  predicate Arrives(r: State, inp: Input) {
    (r.fetch.FetchWaiting? || inp.fetchAccept) && inp.fetchDone
  }

  lemma FetchOutcome(code: Program, r: State, inp: Input)
    ensures var o, addr := FetchStage(code, r, inp), FetchAddr(r);
            && (o == Abort(MisalignedFetch) <==> !r.fetch.FetchWaiting? && addr % 4 != 0)
            && (o == Abort(FenceFetched) <==>
                  !(o == Abort(MisalignedFetch)) && Arrives(r, inp) && r.id.None? && code(addr).op.Fence?)
            && (o.Abort? ==> o.panic == MisalignedFetch || o.panic == FenceFetched)
            && (o.Ok? ==> Fetches(code, r, inp, o.state))
  {
    hide OpcodeOf;
  }

  /** A request is sent until it is accepted, and not again; the word goes to ID as soon as that is free, with a
      prediction if it transfers control, and the next fetch is where the prediction says. */
  predicate Fetches(code: Program, r: State, inp: Input, t: State) {
    var addr := FetchAddr(r);
    if !Arrives(r, inp) then
      && t.fetch == (if r.fetch.FetchWaiting? || inp.fetchAccept then FetchWaiting(addr) else FetchSending(addr))
      && t.ifPc == r.ifPc && t.id == r.id && t.hpm == r.hpm
    else if r.id.Some? then t.ifBuffer == Some(code(addr)) && t.ifPc == r.ifPc && t.id == r.id && t.hpm == r.hpm
    else
      && t.fetch.FetchIdle? && t.ifBuffer.None? && t.id.Some?
      && t.id.value.inst == code(addr) && t.id.value.pc == r.ifPc && !t.id.value.placeholder
      && t.id.value.predicted == (if IsControlOpcode(OpcodeOf(code(addr).op)) then Some(inp.prediction) else None)
      && t.ifPc == (if t.id.value.predicted.Some? && inp.prediction.taken then inp.prediction.addr else Wrap(r.ifPc + 4))
      && t.hpm.fetched == r.hpm.fetched + 1
  }

  /** IF over a whole cycle: ID is free for the word exactly if it was empty or its op has gone to EXE. */
  lemma FetchCycle(code: Program, s: State, inp: Input)
    requires Tick(code, s, inp).Ok?
    ensures AfterExe(s, inp).Ok?
    ensures var r, t := AfterExe(s, inp).state, Tick(code, s, inp).state;
            var held := r.id.Some? && (r.exe.Some? || BehindItsLoad(r));
            var after := r.(id := if held then r.id else None);
            Fetches(code, after, inp, t)
  {
    hide UpToExecute, ExecuteStage, BehindItsLoad, LoadUseHazard, DecodeStage, FetchStage, Fetches;
    var r := AfterExe(s, inp).state;
    HazardIff(r);
    var stall := LoadUseHazard(r).value;
    DecodeOnly(r, stall);
    var d := DecodeStage(r, stall).state;
    FetchOutcome(code, d, inp);
    SameFetch(code, d, r.(id := d.id), inp, FetchStage(code, d, inp).state, Tick(code, s, inp).state);
  }

  lemma DecodeOnly(r: State, stall: bool)
    requires DecodeStage(r, stall).Ok?
    ensures var d := DecodeStage(r, stall).state;
            && d.id == (if r.id.Some? && (r.exe.Some? || stall) then r.id else None)
            && d.fetch == r.fetch && d.ifPc == r.ifPc && d.hpm == r.hpm && d.ifBuffer == r.ifBuffer
  {
    hide DecodeWith;
  }

  lemma SameFetch(code: Program, d: State, r: State, inp: Input, t: State, u: State)
    requires d.id == r.id && d.fetch == r.fetch && d.ifPc == r.ifPc && d.hpm == r.hpm
    requires Fetches(code, d, inp, t)
    requires u.id == t.id && u.fetch == t.fetch && u.ifPc == t.ifPc && u.hpm == t.hpm && u.ifBuffer == t.ifBuffer
    ensures Fetches(code, r, inp, u)
  {}
}
