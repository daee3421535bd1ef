/** The pipeline never deadlocks: a lower bound on the instructions retired in any run, counted in the cycles in
    which the memories were willing. */
module PipelineProgress {
  import opened Words
  import opened Isa
  import opened Uop
  import opened Pipeline
  import opened PipelineProof
  import opened PipelineTheorems

  /** Both caches accept and complete whatever they are asked for in this cycle. */
  predicate Willing(inp: Input) {
    inp.fetchAccept && inp.fetchDone && inp.dataAccept && inp.dataDone
  }

  predicate Multiplies(op: Op) {
    op.Mul? || op.Mulh? || op.Mulhsu? || op.Mulhu?
  }

  predicate Divides(op: Op) {
    op.Div? || op.Divu? || op.Rem? || op.Remu?
  }

  predicate IsMExtension(o: Option<MicroOp>) {
    o.Some? && (Multiplies(o.value.inst.op) || Divides(o.value.inst.op))
  }

  /** The stall constants of the multiplier and the divider. */
  lemma StallTimes(op: Op)
    ensures MExtensionStall(op) == if Multiplies(op) then Some(8) else if Divides(op) then Some(32) else None
  {}

  /** How many willing cycles the oldest instruction is from WB, counting from a fetch. */
  function Distance(s: State): nat {
    if Real(s.wb) then 0
    else if Real(s.mem) then 1
    else if Real(s.exe) then
      if IsMExtension(s.exe) && s.countdown.None? then 3 else 2
    else if s.id.Some? then 4
    else 5
  }

  predicate SameInst(a: MicroOp, b: MicroOp) {
    a.inst == b.inst && a.pc == b.pc && a.placeholder == b.placeholder
  }

  predicate SameOp(a: Option<MicroOp>, b: Option<MicroOp>) {
    && (a.Some? <==> b.Some?)
    && (a.Some? ==> SameInst(a.value, b.value))
  }

  lemma ProgressCompletes(txn: Transaction, bus: Bus, access: Access)
    ensures var r := Progress(txn, bus, access, true, true);
            r.Misaligned? || r.status.Complete?
  {}

  lemma ForwardSame(op: MicroOp, wb: Option<MicroOp>, mem: Option<MicroOp>)
    ensures SameOp(Some(Forwarded(op, wb, mem)), Some(op))
  {}

  lemma OpenShape(code: Program, s: State, a: Arch)
    requires Base(code, s, a) && Open(s).Ok?
    ensures var t := Open(s).state;
            && t.wb == s.wb && t.mem == s.mem && t.countdown == s.countdown
            && (!Real(s.mem) ==> t.id == s.id && SameOp(t.exe, s.exe))
  {
    hide Step, BusOk, WbOk, MemOk, RegsOk, IdShape, FetchOk, ExeShape, Chain, RawNext, Forwarded;
    if s.exe.Some? {
      ForwardSame(s.exe.value, s.wb, s.mem);
    }
  }

  /** MEM passes on the op in it at once unless its access is pending. */
  lemma MemoryShape(code: Program, s: State, inp: Input, a: Arch)
    requires s.wb.None? && MemOk(code, s.mem, a) && MemoryStage(s, inp).Ok?
    ensures var t := MemoryStage(s, inp).state;
            && t.id == s.id && t.exe == s.exe && t.countdown == s.countdown
            && (Real(s.mem) ==> Real(t.wb) || Real(t.mem))
            && (Real(s.mem) && Willing(inp) ==> Real(t.wb))
            && (!Real(s.mem) ==> t.mem.None? && !Real(t.wb))
  {
    hide Progress, Executed, MicroOp.MemoryAccess;
    BubbleExecutes();
    if s.mem.Some? && s.mem.value.MemoryAccess().Some? {
      ProgressCompletes(s.txn, s.bus, s.mem.value.MemoryAccess().value);
    }
  }

  lemma UpToShape(code: Program, s: State, inp: Input, a: Arch)
    requires Base(code, s, a) && UpToExecute(s, inp).Ok?
    ensures var t := UpToExecute(s, inp).state;
            && t.countdown == s.countdown
            && (Real(s.mem) ==> Real(t.wb) || Real(t.mem))
            && (Real(s.mem) && Willing(inp) ==> Real(t.wb))
            && (!Real(s.mem) ==> t.mem.None? && t.id == s.id && SameOp(t.exe, s.exe))
  {
    OpenShape(code, s, a);
    hide Base, Open, MemoryStage;
    var s1 := WriteBack(Open(s).state);
    MemBase(code, s, a);
    MemoryShape(code, s1, inp, Past(code, s.wb, a));
  }

  lemma MemBase(code: Program, s: State, a: Arch)
    requires Base(code, s, a)
    ensures MemOk(code, s.mem, Past(code, s.wb, a))
    ensures s.exe.Some? ==> ExeShape(code, s.exe)
  {}

  lemma ResolveShape(s: State, op: MicroOp)
    requires Resolve(s, op).Ok?
    ensures var t := Resolve(s, op).state;
            t.wb == s.wb && t.id == s.id && t.exe.None? && t.mem == Some(op) && t.countdown == s.countdown
  {
    hide BranchTaken;
  }

  lemma ComputeSame(op: MicroOp, x: Word, y: Word)
    ensures SameOp(Some(Uop.Compute(op, x, y)), Some(op))
  {
    hide AluResult;
  }

  /** EXE with MEM free lets every op go, except that the multiplier or divider starts its countdown first. */
  lemma ExecuteShape(s: State)
    requires ExecuteStage(s).Ok?
    ensures var t := ExecuteStage(s).state;
            && t.wb == s.wb && t.id == s.id
            && (s.mem.Some? ==> t.mem == s.mem)
            && (s.mem.None? && s.exe.Some? ==>
                  if IsMExtension(s.exe) && s.countdown.None? then
                    t.mem.None? && t.exe == s.exe && t.countdown == Some(if Multiplies(s.exe.value.inst.op) then 8 else 32)
                  else t.exe.None? && SameOp(t.mem, s.exe))
            && (s.mem.None? && s.exe.None? ==> t.mem.None? && t.exe.None?)
  {
    hide Uop.Compute, AluOperands, Resolve, MExtensionStall;
    if s.exe.Some? {
      StallTimes(s.exe.value.inst.op);
    }
    if s.mem.None? && s.exe.Some? && AluOperands(s.exe.value).Some? {
      var op := s.exe.value;
      var (x, y) := AluOperands(op).value;
      ComputeSame(op, x, y);
      var c := CountDown(s.countdown);
      var s1 := s.(countdown := if MExtensionStall(op.inst.op).Some? then None else c);
      if Resolve(s1, Uop.Compute(op, x, y)).Ok? {
        ResolveShape(s1, Uop.Compute(op, x, y));
      }
    }
  }

  lemma DecodeIsReal(f: MicroOp, x: Word, y: Word)
    ensures DecodeWith(f, x, y).placeholder == f.placeholder
  {}

  lemma DecodeShapeOf(s: State)
    requires LoadUseHazard(s).Some? && DecodeStage(s, LoadUseHazard(s).value).Ok?
    ensures var t := DecodeStage(s, LoadUseHazard(s).value).state;
            && t.wb == s.wb && t.mem == s.mem && t.countdown == s.countdown
            && (s.exe.Some? ==> t.exe == s.exe)
            && (s.exe.None? && s.id.Some? && !s.id.value.placeholder && !(s.mem.Some? && s.mem.value.IsLoadOp()) ==>
                  Real(t.exe))
            && (s.exe.None? && s.id.None? ==> t.exe.None? && t.id.None?)
            && (LoadUseHazard(s).value ==> s.exe.None? && s.id.Some? && s.mem.Some? && s.mem.value.IsLoadOp())
  {
    hide OpcodeOf, MicroOp.IsLoadOp, DecodeWith;
    if s.id.Some? {
      DecodeIsReal(s.id.value, s.regs[s.id.value.inst.rs1], s.regs[s.id.value.inst.rs2]);
    }
  }

  lemma FetchShapeOf(code: Program, s: State, inp: Input)
    requires FetchStage(code, s, inp).Ok?
    ensures var t := FetchStage(code, s, inp).state;
            && t.wb == s.wb && t.mem == s.mem && t.countdown == s.countdown && t.exe == s.exe
            && (Willing(inp) ==> t.id.Some?)
  {
    hide OpcodeOf, PredictedNext;
  }

  /** ID, IF and the bubble leave WB and MEM alone; an instruction in ID with EXE empty and no load in MEM
      enters EXE, and a willing fetch fills an empty ID. */
  lemma FrontShape(code: Program, s: State, inp: Input)
    requires FrontEnd(code, s, inp).Ok?
    ensures var t := FrontEnd(code, s, inp).state;
            && t.wb == s.wb && t.mem == s.mem && t.countdown == s.countdown
            && (s.exe.Some? ==> t.exe == s.exe)
            && (s.exe.None? && s.id.Some? && !s.id.value.placeholder && !(s.mem.Some? && s.mem.value.IsLoadOp()) ==>
                  Real(t.exe))
            && (s.exe.None? && s.id.None? && Willing(inp) ==> t.id.Some?)
  {
    hide LoadUseHazard, DecodeStage, FetchStage, MicroOp.IsLoadOp;
    DecodeShapeOf(s);
    FetchShapeOf(code, DecodeStage(s, LoadUseHazard(s).value).state, inp);
  }

  lemma IdIsReal(code: Program, s: State, a: Arch)
    requires Base(code, s, a)
    ensures s.id.Some? ==> !s.id.value.placeholder
    ensures s.exe.Some? && !Real(s.exe) ==> s.exe.value == BUBBLE
  {}

  lemma NotLoad(mem: Option<MicroOp>)
    requires SameOp(mem, Some(BUBBLE))
    ensures !Real(mem) && !mem.value.IsLoadOp()
  {}

  /** With nothing real in WB or MEM, every cycle brings the front of the pipeline nearer. */
  lemma FrontProgress(code: Program, s: State, inp: Input, a: Arch)
    requires Base(code, s, a) && Tick(code, s, inp).Ok? && !Real(s.wb) && !Real(s.mem)
    ensures var t := Tick(code, s, inp).state;
            Distance(t) <= Distance(s) && (Willing(inp) ==> Distance(t) < Distance(s))
  {
    hide Base, UpToExecute, ExecuteStage, FrontEnd, MicroOp.IsLoadOp, Multiplies, Divides;
    IdIsReal(code, s, a);
    UpToShape(code, s, inp, a);
    var s1 := UpToExecute(s, inp).state;
    ExecuteShape(s1);
    var s2 := ExecuteStage(s1).state;
    FrontShape(code, s2, inp);
    if s.exe.Some? && !Real(s.exe) {
      BubbleHasNoStall();
      NotLoad(s2.mem);
    }
  }

  lemma BubbleHasNoStall()
    ensures !IsMExtension(Some(BUBBLE))
  {}

  lemma BackProgress(code: Program, s: State, inp: Input, a: Arch)
    requires Base(code, s, a) && Tick(code, s, inp).Ok? && !Real(s.wb) && Real(s.mem)
    ensures var t := Tick(code, s, inp).state;
            Distance(t) <= 1 && (Willing(inp) ==> Distance(t) == 0)
  {
    hide Base, UpToExecute, ExecuteStage, FrontEnd, MicroOp.IsLoadOp, Multiplies, Divides;
    UpToShape(code, s, inp, a);
    var s1 := UpToExecute(s, inp).state;
    ExecuteShape(s1);
    FrontShape(code, ExecuteStage(s1).state, inp);
  }

  /** A cycle either retires an instruction or brings the oldest one no further from WB, and strictly nearer if
      the memories are willing. */
  lemma CycleProgress(code: Program, start: Arch, s: State, inp: Input)
    requires Invariant(code, start, s) && Tick(code, s, inp).Ok?
    ensures var t := Tick(code, s, inp).state;
            && t.hpm.retired == s.hpm.retired + Count(s.wb)
            && (Real(s.wb) || Distance(t) <= Distance(s))
            && (Real(s.wb) || !Willing(inp) || Distance(t) < Distance(s))
  {
    hide Base, WillBeReady, Tick;
    TickKeeps(code, start, s, inp);
    var a := After(code, start, s.hpm.retired);
    if !Real(s.wb) {
      if Real(s.mem) {
        BackProgress(code, s, inp, a);
      } else {
        FrontProgress(code, s, inp, a);
      }
    }
  }

  function WillingCycles(inputs: seq<Input>): nat {
    if |inputs| == 0 then 0
    else WillingCycles(inputs[..|inputs| - 1]) + if Willing(inputs[|inputs| - 1]) then 1 else 0
  }

  /** Throughput: in any run, with any stalls and predictions, at least one instruction retires for every six
      cycles in which the memories were willing, give or take the first five. */
  lemma {:induction false} RetiresUnderWillingMemory(code: Program, pc: Word, m: Memory, inputs: seq<Input>)
    requires Run(code, Pipeline.Initial(pc, m), inputs).Ok?
    ensures var s := Run(code, Pipeline.Initial(pc, m), inputs).state;
            6 * s.hpm.retired + 5 >= WillingCycles(inputs) + Distance(s)
  {
    hide Tick, Distance, Invariant;
    if |inputs| == 0 {
      InitialDistance(pc, m);
    } else {
      var earlier := inputs[..|inputs| - 1];
      RetiresUnderWillingMemory(code, pc, m, earlier);
      RunKeeps(code, pc, m, earlier);
      var s := Run(code, Pipeline.Initial(pc, m), earlier).state;
      CycleProgress(code, Isa.Initial(pc, m), s, inputs[|inputs| - 1]);
      DistanceBound(s);
      DistanceBound(Tick(code, s, inputs[|inputs| - 1]).state);
    }
  }

  lemma InitialDistance(pc: Word, m: Memory)
    ensures Distance(Pipeline.Initial(pc, m)) == 5
  {}

  lemma DistanceBound(s: State)
    ensures Distance(s) <= 5
    ensures Distance(s) == 0 <==> Real(s.wb)
  {}
}
