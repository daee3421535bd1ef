/** JALR keeps the low bit of its target (decode.rs): a run in which that stops the pipeline. */
module OddJalr {
  import opened Words
  import opened Isa
  import opened Uop
  import opened Pipeline
  import opened PipelineTheorems

  /** The failing case of RecoveryTarget, as a run: `jalr x0, 1(x0)` at address 0 loops on the machine for ever, but in
      the pipeline the fourth cycle recovers to address 1, which the fetch stage rejects, with every memory answering
      at once and every branch predicted not taken. */
  lemma OddJalrTarget(code: Program, m: Memory)
    requires code(0) == Inst(Jalr, 0, 0, 0, 1)
    requires forall a: Word :: a != 0 ==> code(a) == Inst(Addi, 0, 0, 0, 0)
    ensures var w := Input(true, true, true, true, Prediction(false, 0));
            Run(code, Pipeline.Initial(0, m), [w, w, w, w]) == Abort(MisalignedFetch)
    ensures Machine(code, 0, m, 1).pc == 0 && !Machine(code, 0, m, 1).trapped
  {
    hide Tick, Run, DecodeWith;
    var w := Input(true, true, true, true, Prediction(false, 0));
    var s0 := Pipeline.Initial(0, m);
    var jalr := Fetched(Inst(Jalr, 0, 0, 0, 1), 0, Some(Prediction(false, 0)));
    var next := Fetched(Inst(Addi, 0, 0, 0, 0), 4, None);
    JalrFetched(code, s0, jalr);
    var s1 := Tick(code, s0, w).state;
    JalrDecoded(code, s1, jalr, next);
    var s2 := Tick(code, s1, w).state;
    JalrResolved(code, s2, jalr);
    var s3 := Tick(code, s2, w).state;
    JalrRecovers(code, s3, w);
    hide Pipeline.Initial;
    assert [] + [w] == [w] && [w] + [w] == [w, w] && [w, w] + [w] == [w, w, w] && [w, w, w] + [w] == [w, w, w, w];
    OneMore(code, s0, [], w);
    OneMore(code, s0, [w], w);
    OneMore(code, s0, [w, w], w);
    OneMore(code, s0, [w, w, w], w);
    NoInputs(code, s0);
    JalrLoops(code, m);
  }

  lemma OneMore(code: Program, s: State, inputs: seq<Input>, inp: Input)
    ensures Run(code, s, inputs + [inp]) ==
              match Run(code, s, inputs)
              case Abort(p) => Abort(p)
              case Ok(t) => Tick(code, t, inp)
  {
    hide Tick;
    assert (inputs + [inp])[..|inputs|] == inputs;
  }

  lemma NoInputs(code: Program, s: State)
    ensures Run(code, s, []) == Ok(s)
  {}

  lemma JalrLoops(code: Program, m: Memory)
    requires code(0) == Inst(Jalr, 0, 0, 0, 1)
    ensures Machine(code, 0, m, 1).pc == 0 && !Machine(code, 0, m, 1).trapped
  {
    assert Machine(code, 0, m, 0) == Isa.Initial(0, m);
  }

  /** The jump is fetched into ID. */
  lemma JalrFetched(code: Program, s: State, jalr: MicroOp)
    requires code(0) == Inst(Jalr, 0, 0, 0, 1) && jalr == Fetched(Inst(Jalr, 0, 0, 0, 1), 0, Some(Prediction(false, 0)))
    requires !s.recover && s.wb.None? && s.mem.None? && s.exe.None? && s.id.None? && s.fetch.FetchIdle? && s.ifPc == 0
    ensures var r := Tick(code, s, Input(true, true, true, true, Prediction(false, 0)));
            && r.Ok? && var t := r.state;
               && !t.recover && t.wb.None? && t.mem.None? && t.exe.None? && t.id == Some(jalr)
               && t.fetch.FetchIdle? && t.ifPc == 4 && t.regs == s.regs && t.countdown.None? == s.countdown.None?
  {}

  /** It is decoded into EXE, and the word behind it is fetched. */
  lemma JalrDecoded(code: Program, s: State, jalr: MicroOp, next: MicroOp)
    requires code(4) == Inst(Addi, 0, 0, 0, 0) && next == Fetched(Inst(Addi, 0, 0, 0, 0), 4, None)
    requires jalr == Fetched(Inst(Jalr, 0, 0, 0, 1), 0, Some(Prediction(false, 0)))
    requires !s.recover && s.wb.None? && s.mem.None? && s.exe.None? && s.id == Some(jalr) && s.fetch.FetchIdle? && s.ifPc == 4
    ensures var r := Tick(code, s, Input(true, true, true, true, Prediction(false, 0)));
            && r.Ok? && var t := r.state;
               && !t.recover && t.wb.None? && t.mem.None? && t.exe == Some(DecodeWith(jalr, s.regs[0], s.regs[0]))
               && t.id == Some(next) && t.fetch.FetchIdle? && t.ifPc == 8 && t.regs == s.regs
  {
    hide DecodeWith;
    var inp := Input(true, true, true, true, Prediction(false, 0));
    var s1 := s.(hpm := s.hpm.(cycles := s.hpm.cycles + 1));
    assert UpToExecute(s, inp) == Ok(s1);
    var s2 := s1.(countdown := CountDown(s1.countdown));
    assert ExecuteStage(s1) == Ok(s2);
    hide UpToExecute, ExecuteStage;
    JalrEnters(code, s2, jalr, next, inp);
    hide FrontEnd;
  }

  lemma JalrEnters(code: Program, s: State, jalr: MicroOp, next: MicroOp, inp: Input)
    requires code(4) == Inst(Addi, 0, 0, 0, 0) && next == Fetched(Inst(Addi, 0, 0, 0, 0), 4, None)
    requires jalr == Fetched(Inst(Jalr, 0, 0, 0, 1), 0, Some(Prediction(false, 0))) && inp.fetchAccept && inp.fetchDone
    requires s.mem.None? && s.exe.None? && s.id == Some(jalr) && s.fetch.FetchIdle? && s.ifPc == 4
    ensures var r := FrontEnd(code, s, inp);
            && r.Ok? && var t := r.state;
               && t.recover == s.recover && t.wb == s.wb && t.mem.None? && t.exe == Some(DecodeWith(jalr, s.regs[0], s.regs[0]))
               && t.id == Some(next) && t.fetch.FetchIdle? && t.ifPc == 8 && t.regs == s.regs
  {
    hide DecodeWith;
    assert LoadUseHazard(s) == Some(false);
    var s1 := s.(exe := Some(DecodeWith(jalr, s.regs[0], s.regs[0])), id := None);
    assert DecodeStage(s, false) == Ok(s1);
    hide LoadUseHazard, DecodeStage;
    assert !IsControlOpcode(OpcodeOf(Addi));
  }

  /** It resolves to address 1 and leaves EXE with a recovery pending. */
  lemma JalrResolved(code: Program, s: State, jalr: MicroOp)
    requires code(8) == Inst(Addi, 0, 0, 0, 0) && s.regs[0] == 0
    requires jalr == Fetched(Inst(Jalr, 0, 0, 0, 1), 0, Some(Prediction(false, 0)))
    requires !s.recover && s.wb.None? && s.mem.None? && s.exe == Some(DecodeWith(jalr, s.regs[0], s.regs[0]))
    requires s.id.Some? && s.id.value.inst == Inst(Addi, 0, 0, 0, 0) && s.fetch.FetchIdle? && s.ifPc == 8
    ensures var r := Tick(code, s, Input(true, true, true, true, Prediction(false, 0)));
            r.Ok? && r.state.recover && r.state.destination == 1 && r.state.mem.Some? && r.state.flushDepth == 3
            && r.state.wb.None? && r.state.mem.value.inst == jalr.inst
  {
    var inp := Input(true, true, true, true, Prediction(false, 0));
    var s1 := s.(hpm := s.hpm.(cycles := s.hpm.cycles + 1));
    assert UpToExecute(s, inp) == Ok(s1);
    JalrExecutes(s1, jalr);
    var s2 := ExecuteStage(s1).state;
    hide UpToExecute, ExecuteStage;
    JalrBehind(code, s2, inp);
  }

  lemma JalrExecutes(s: State, jalr: MicroOp)
    requires jalr == Fetched(Inst(Jalr, 0, 0, 0, 1), 0, Some(Prediction(false, 0))) && s.regs[0] == 0
    requires s.mem.None? && s.exe == Some(DecodeWith(jalr, s.regs[0], s.regs[0]))
    ensures var r := ExecuteStage(s);
            && r.Ok? && var t := r.state;
               && t.mem.Some? && t.mem.value.inst == jalr.inst && t.exe.None?
               && t.recover && t.destination == 1 && t.flushDepth == 3
               && t.wb == s.wb && t.id == s.id && t.fetch == s.fetch && t.ifPc == s.ifPc
  {
    var op := s.exe.value;
    JalrOperands(jalr, op);
    hide AluResult, AluOperands, DecodeWith, IsControl, MExtensionStall, BranchTaken;
    var s1 := s.(countdown := CountDown(s.countdown));
    var done := Uop.Compute(op, 0, 1);
    assert done.aluResult == 1;
    assert ExecuteStage(s) == Resolve(s1, done);
  }

  /** What decode gives for the jump. */
  lemma JalrOperands(jalr: MicroOp, op: MicroOp)
    requires jalr == Fetched(Inst(Jalr, 0, 0, 0, 1), 0, Some(Prediction(false, 0))) && op == DecodeWith(jalr, 0, 0)
    ensures AluOperands(op) == Some((0, 1)) && AluResult(op.aluOp, 0, 1) == 1
    ensures op.predicted == Some(Prediction(false, 0)) && op.inst == jalr.inst && op.pc == 0
    ensures MExtensionStall(op.inst.op).None? && IsControl(op.inst.op)
    ensures BranchTaken(op.inst.op, ValueOf(op.rs1), ValueOf(op.rs2)) == Some(true)
  {
    AluAdds(0, 1);
    hide AluResult;
  }

  lemma AluAdds(a: Word, b: Word)
    ensures AluResult(AluAdd, a, b) == Wrap(a + b)
  {}

  lemma JalrBehind(code: Program, s: State, inp: Input)
    requires code(8) == Inst(Addi, 0, 0, 0, 0) && inp.fetchAccept && inp.fetchDone
    requires s.mem.Some? && s.mem.value.inst == Inst(Jalr, 0, 0, 0, 1) && s.exe.None?
    requires s.id.Some? && s.id.value.inst == Inst(Addi, 0, 0, 0, 0) && s.fetch.FetchIdle? && s.ifPc == 8
    ensures var r := FrontEnd(code, s, inp);
            && r.Ok? && var t := r.state;
               t.mem == s.mem && t.wb == s.wb && t.recover == s.recover && t.destination == s.destination
               && t.flushDepth == s.flushDepth
  {}

  lemma JalrRecovers(code: Program, s: State, inp: Input)
    requires s.recover && s.destination == 1 && s.mem.Some? && s.flushDepth == 3 && s.wb.None?
    requires s.mem.value.inst == Inst(Jalr, 0, 0, 0, 1)
    ensures Tick(code, s, inp) == Abort(MisalignedFetch)
  {}
}
