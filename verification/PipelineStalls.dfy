/** The stall of the multiplier and divider (pipe.rs), over whole cycles: one extra cycle in EXE, whatever the
    countdown of 8 or 32 has reached. */
module PipelineStalls {
  import opened Words
  import opened Isa
  import opened Uop
  import opened Pipeline
  import opened PipelineProof
  import opened PipelineProgress
  import opened PipelineTheorems

  /** A countdown runs only for a multiply or divide in EXE, and never with a recovery pending. */
  predicate Stalling(s: State) {
    s.countdown.Some? ==> IsMExtension(s.exe) && !s.recover
  }

  lemma OpenStalls(s: State)
    requires Stalling(s) && Open(s).Ok?
    ensures var t := Open(s).state;
            && Stalling(t) && !t.recover && t.countdown == s.countdown
            && (!s.recover ==> SameOp(t.exe, s.exe)) && t.mem.Some? == (s.mem.Some? && !(s.recover && s.flushDepth >= 4))
  {
    hide Forwarded;
    if s.exe.Some? {
      ForwardSame(s.exe.value, s.wb, s.mem);
    }
  }

  lemma BackStalls(s: State, inp: Input)
    requires MemoryStage(WriteBack(s), inp).Ok?
    ensures var t := MemoryStage(WriteBack(s), inp).state;
            && t.countdown == s.countdown && t.exe == s.exe && t.recover == s.recover
            && (s.mem.None? ==> t.mem.None?)
  {
    WriteBackLeaves(s);
    hide WriteBack;
    MemoryLeaves(WriteBack(s), inp);
  }

  lemma WriteBackLeaves(s: State)
    ensures var t := WriteBack(s);
            t.countdown == s.countdown && t.exe == s.exe && t.recover == s.recover && t.mem == s.mem
  {}

  lemma MemoryLeaves(s: State, inp: Input)
    requires MemoryStage(s, inp).Ok?
    ensures var t := MemoryStage(s, inp).state;
            && t.countdown == s.countdown && t.exe == s.exe && t.recover == s.recover
            && (s.mem.None? ==> t.mem.None?)
  {
    hide Progress, MicroOp.MemoryAccess;
  }

  lemma UpToStalls(s: State, inp: Input)
    requires Stalling(s) && UpToExecute(s, inp).Ok?
    ensures var t := UpToExecute(s, inp).state;
            && Stalling(t) && !t.recover && t.countdown == s.countdown
            && (!s.recover ==> SameOp(t.exe, s.exe))
            && (s.mem.None? ==> t.mem.None?)
  {
    hide Open, WriteBack, MemoryStage;
    OpenStalls(s);
    BackStalls(Open(s).state, inp);
  }

  /** EXE starts a countdown for such an op, and clears it when the op leaves. */
  lemma ExecuteStalls(s: State)
    requires Stalling(s) && !s.recover && ExecuteStage(s).Ok?
    ensures var t := ExecuteStage(s).state;
            && Stalling(t)
            && (t.exe.None? ==> t.countdown.None?)
            && (IsMExtension(s.exe) ==> !t.recover)
  {
    hide Uop.Compute, AluOperands, BranchTaken;
    if s.exe.Some? {
      NoStallForControl(s.exe.value.inst.op);
      StallTimes(s.exe.value.inst.op);
    }
    ComputeKeepsInst(s);
    hide MExtensionStall, IsControl, Multiplies, Divides;
  }

  lemma NoStallForControl(op: Op)
    ensures Multiplies(op) || Divides(op) ==> !IsControl(op) && !op.Ecall?
  {}

  lemma ComputeKeepsInst(s: State)
    ensures s.exe.Some? ==> forall x, y :: Uop.Compute(s.exe.value, x, y).inst == s.exe.value.inst
  {
    hide AluResult;
  }

  lemma FrontStalls(code: Program, s: State, inp: Input)
    requires FrontEnd(code, s, inp).Ok?
    ensures var t := FrontEnd(code, s, inp).state;
            && t.countdown == s.countdown && t.recover == s.recover && t.mem == s.mem
            && (s.exe.Some? ==> t.exe == s.exe)
  {
    hide LoadUseHazard, DecodeStage, FetchStage;
    var stall := LoadUseHazard(s).value;
    DecodeLeaves(s, stall);
    FetchLeavesStalls(code, DecodeStage(s, stall).state, inp);
    HazardNeedsRoom(s);
  }

  lemma HazardNeedsRoom(s: State)
    ensures LoadUseHazard(s) == Some(true) ==> s.exe.None?
  {
    hide OpcodeOf, MicroOp.IsLoadOp;
  }

  lemma DecodeLeaves(s: State, stall: bool)
    requires DecodeStage(s, stall).Ok?
    ensures var t := DecodeStage(s, stall).state;
            && t.countdown == s.countdown && t.recover == s.recover && t.mem == s.mem
            && (s.exe.Some? ==> t.exe == s.exe)
  {
    hide DecodeWith;
  }

  lemma FetchLeavesStalls(code: Program, s: State, inp: Input)
    requires FetchStage(code, s, inp).Ok?
    ensures var t := FetchStage(code, s, inp).state;
            t.countdown == s.countdown && t.recover == s.recover && t.mem == s.mem && t.exe == s.exe
  {
    hide OpcodeOf, IsControlOpcode, PredictedNext;
  }

  lemma TickStalls(code: Program, s: State, inp: Input)
    requires Stalling(s) && Tick(code, s, inp).Ok?
    ensures Stalling(Tick(code, s, inp).state)
  {
    hide UpToExecute, ExecuteStage, FrontEnd, Multiplies, Divides;
    UpToStalls(s, inp);
    var r := UpToExecute(s, inp).state;
    ExecuteStalls(r);
    FrontStalls(code, ExecuteStage(r).state, inp);
  }

  lemma {:induction false} RunStalls(code: Program, pc: Word, m: Memory, inputs: seq<Input>)
    requires Run(code, Pipeline.Initial(pc, m), inputs).Ok?
    ensures Stalling(Run(code, Pipeline.Initial(pc, m), inputs).state)
  {
    hide Tick, Stalling;
    if |inputs| == 0 {
      InitiallyNone(pc, m);
    } else {
      var earlier := inputs[..|inputs| - 1];
      RunStalls(code, pc, m, earlier);
      TickStalls(code, Run(code, Pipeline.Initial(pc, m), earlier).state, inputs[|inputs| - 1]);
    }
  }

  lemma InitiallyNone(pc: Word, m: Memory)
    ensures Stalling(Pipeline.Initial(pc, m))
  {}

  /** In every reachable state a running countdown belongs to a real multiply or divide in EXE; so such an op always
      enters EXE with none. */
  lemma CountdownBelongs(code: Program, pc: Word, m: Memory, s: State)
    requires Reachable(code, pc, m, s)
    ensures Stalling(s)
    ensures s.countdown.Some? ==> Real(s.exe) && (Multiplies(s.exe.value.inst.op) || Divides(s.exe.value.inst.op))
  {
    hide Run, Invariant, Multiplies, Divides;
    var inputs :| Run(code, Pipeline.Initial(pc, m), inputs) == Ok(s);
    RunStalls(code, pc, m, inputs);
    RunKeeps(code, pc, m, inputs);
    RealMExtension(code, Isa.Initial(pc, m), s);
  }

  /** An op that enters EXE in a cycle finds no countdown there. */
  lemma EntersWithoutCountdown(code: Program, pc: Word, m: Memory, s: State, inp: Input)
    requires Reachable(code, pc, m, s) && Tick(code, s, inp).Ok? && UpToExecute(s, inp).Ok?
    requires ExecuteStage(UpToExecute(s, inp).state).Ok? && ExecuteStage(UpToExecute(s, inp).state).state.exe.None?
    ensures Tick(code, s, inp).state.countdown.None?
  {
    CountdownBelongs(code, pc, m, s);
    hide Reachable, UpToExecute, ExecuteStage, FrontEnd, Multiplies, Divides;
    UpToStalls(s, inp);
    var r := UpToExecute(s, inp).state;
    ExecuteStalls(r);
    FrontStalls(code, ExecuteStage(r).state, inp);
  }

  lemma RealMExtension(code: Program, start: Arch, s: State)
    requires Invariant(code, start, s)
    ensures IsMExtension(s.exe) ==> Real(s.exe)
  {
    IdIsReal(code, s, After(code, start, s.hpm.retired));
    BubbleHasNoStall();
    hide Base, WillBeReady, Step;
  }

  /** The countdown that such an op starts with. */
  function FirstCount(op: Op): nat {
    if Multiplies(op) then 8 else 32
  }

  /** One cycle of an op that finds MEM free in EXE. A multiply or divide without a countdown stays and starts one; with
      a countdown it leaves; and any other op leaves. */
  lemma FreeCycle(code: Program, s: State, inp: Input)
    requires Stalling(s) && Tick(code, s, inp).Ok? && UpToExecute(s, inp).Ok?
    requires var r := UpToExecute(s, inp).state; r.mem.None? && r.exe.Some?
    ensures var r, t := UpToExecute(s, inp).state, Tick(code, s, inp).state;
            if IsMExtension(r.exe) && s.countdown.None? then
              t.mem.None? && SameOp(t.exe, r.exe) && t.countdown == Some(FirstCount(r.exe.value.inst.op)) && !t.recover
            else SameOp(t.mem, r.exe) && t.countdown.None?
  {
    hide UpToExecute, ExecuteStage, FrontEnd, Multiplies, Divides;
    UpToStalls(s, inp);
    var r := UpToExecute(s, inp).state;
    ExecuteShape(r);
    ExecuteStalls(r);
    FrontStalls(code, ExecuteStage(r).state, inp);
  }

  /** The multiplier and divider stall for exactly one cycle: when a multiply or divide in EXE first finds MEM free, it
      stays there for that cycle, starting a countdown of 8 or of 32, and in the next it leaves for MEM, whatever the
      caches and the predictor answer and whatever the countdown reads. */
  lemma MExtensionStallsOneCycle(code: Program, pc: Word, m: Memory, s: State, inp: Input, next: Input)
    requires Reachable(code, pc, m, s) && s.countdown.None?
    requires var r := UpToExecute(s, inp); r.Ok? && r.state.mem.None? && IsMExtension(r.state.exe)
    requires Tick(code, s, inp).Ok? && Tick(code, Tick(code, s, inp).state, next).Ok?
    ensures var op, t := UpToExecute(s, inp).state.exe, Tick(code, s, inp).state;
            var u := Tick(code, t, next).state;
            && Real(op)
            && SameOp(t.exe, op) && t.mem.None?
            && t.countdown == Some(if Multiplies(op.value.inst.op) then 8 else 32)
            && SameOp(u.mem, op) && u.countdown.None?
  {
    CountdownBelongs(code, pc, m, s);
    FreeCycle(code, s, inp);
    var t := Tick(code, s, inp).state;
    TickStalls(code, s, inp);
    StillStalling(code, pc, m, s, inp);
    hide Reachable, Tick, Multiplies, Divides;
    NextUpTo(code, t, next);
    UpToStalls(t, next);
    FreeCycle(code, t, next);
  }

  /** Nothing else stalls in EXE: in every reachable state an op that is no multiply or divide and finds MEM free is in
      MEM at the end of the cycle. */
  lemma OthersLeave(code: Program, pc: Word, m: Memory, s: State, inp: Input)
    requires Reachable(code, pc, m, s) && Tick(code, s, inp).Ok? && UpToExecute(s, inp).Ok?
    requires var r := UpToExecute(s, inp).state; r.mem.None? && r.exe.Some? && !IsMExtension(r.exe)
    ensures SameOp(Tick(code, s, inp).state.mem, UpToExecute(s, inp).state.exe)
  {
    CountdownBelongs(code, pc, m, s);
    hide Reachable, Tick, UpToExecute, Stalling;
    FreeCycle(code, s, inp);
  }

  /** While MEM is busy a running countdown falls by one in every cycle and stops at zero. */
  lemma CountdownFalls(code: Program, s: State, inp: Input)
    requires Stalling(s) && s.countdown.Some? && Tick(code, s, inp).Ok? && UpToExecute(s, inp).Ok?
    requires UpToExecute(s, inp).state.mem.Some?
    ensures Tick(code, s, inp).state.countdown == Some(if s.countdown.value == 0 then 0 else s.countdown.value - 1)
  {
    hide UpToExecute, FrontEnd, Resolve, Uop.Compute, AluOperands;
    UpToStalls(s, inp);
    FrontStalls(code, ExecuteStage(UpToExecute(s, inp).state).state, inp);
  }

  lemma NextUpTo(code: Program, s: State, inp: Input)
    requires Tick(code, s, inp).Ok?
    ensures UpToExecute(s, inp).Ok?
  {
    hide UpToExecute, ExecuteStage, FrontEnd;
  }

  lemma StillStalling(code: Program, pc: Word, m: Memory, s: State, inp: Input)
    requires Reachable(code, pc, m, s) && Tick(code, s, inp).Ok? && IsMExtension(Tick(code, s, inp).state.exe)
    ensures Real(Tick(code, s, inp).state.exe)
  {
    hide Reachable, Tick, Invariant, Multiplies, Divides;
    ReachableKeeps(code, pc, m, s);
    TickKeeps(code, Isa.Initial(pc, m), s, inp);
    RealMExtension(code, Isa.Initial(pc, m), Tick(code, s, inp).state);
  }
}
