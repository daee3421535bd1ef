/** The joint machine keeps the processor and the hierarchy in step, so the two theorems about them meet without any
    assumption about each other: the processor is the sequential machine, over the real caches. */
module JointProof {
  import opened Words
  import Isa
  import Uop
  import P = Pipeline
  import Proof = PipelineProof
  import T = PipelineTheorems
  import C = Cache
  import CacheConfig
  import CachePort
  import CacheProof
  import Aborts = HierarchyAborts
  import opened MemoryPort
  import opened MainPort
  import opened Hierarchy
  import opened HierarchyProof
  import opened EndToEnd
  import opened JointMachine

  // ---------- The invariant ----------

  /** The hierarchy has accepted the requests for the accesses the pipeline has sent, and the last one is done unless
      the pipeline waits for it. */
  predicate InStep(cpu: P.State, h: History) {
    && h.accepted == Requests(cpu.bus.accepted)
    && (!cpu.txn.TxnWaiting? ==> MayRegister(h))
  }

  predicate DataOk(h: History, m: Memory) {
    SystemOk(h.system) && FollowsFlat(h, m) && Aborts.Suggested(h.system)
  }

  ghost predicate JointOk(code: Isa.Program, pc: Word, m: Memory, j: Joint) {
    T.Reachable(code, pc, m, j.cpu) && DataOk(j.data, m) && InStep(j.cpu, j.data)
  }

  // ---------- The state in which MEM runs ----------

  lemma RecoveryDepth(code: Isa.Program, pc: Word, m: Memory, s: P.State)
    requires T.Reachable(code, pc, m, s) && s.recover
    ensures s.flushDepth == 3 && s.mem.Some?
  {
    hide T.Reachable, Isa.Step, Proof.WillBeReady, Proof.Chain, Proof.IdShape, Proof.ExeShape, Proof.FetchOk, Proof.Balanced,
      Proof.RawNext, Proof.RegsOk, Proof.WbOk, Proof.MemOk, Proof.BusOk;
    T.ReachableKeeps(code, pc, m, s);
  }

  /** Nothing before MEM touches the data side, and MEM finds WB free. */
  lemma OpenKeepsData(code: Isa.Program, pc: Word, m: Memory, s: P.State)
    requires T.Reachable(code, pc, m, s)
    ensures P.Open(s).Ok?
    ensures var t := P.WriteBack(P.Open(s).state);
            t.mem == s.mem && t.txn == s.txn && t.bus == s.bus && t.wb.None?
  {
    hide T.Reachable;
    var s0 := s.(hpm := s.hpm.(cycles := s.hpm.cycles + 1));
    if s.recover {
      RecoveryDepth(code, pc, m, s);
      Proof.RecoverEffect(s0);
    }
    hide P.Recover, Isa.WriteReg;
  }

  /** A transaction under way belongs to the op in MEM. */
  predicate OwnTransaction(t: P.State) {
    && !t.txn.TxnComplete?
    && (t.txn.TxnSending? || t.txn.TxnWaiting? ==> t.mem.Some? && t.mem.value.MemoryAccess() == Some(t.txn.access))
  }

  lemma ReachableTransaction(code: Isa.Program, pc: Word, m: Memory, s: P.State)
    requires T.Reachable(code, pc, m, s)
    ensures OwnTransaction(s)
  {
    T.ReachableKeeps(code, pc, m, s);
    hide T.Reachable, Isa.Step, Proof.WillBeReady, Proof.Chain, Proof.IdShape, Proof.ExeShape, Proof.FetchOk, Proof.Balanced,
      Proof.RawNext;
  }

  predicate DataMoved(t: P.State, ans: DataAnswer, u: P.State) {
    match CallOf(t)
    case NoCall => u.bus == t.bus && !u.txn.TxnWaiting?
    case PollAccess => u.bus == t.bus && (u.txn.TxnWaiting? <==> !ans.done)
    case SendAccess(access) =>
      && u.bus.accepted == (if ans.accept then t.bus.accepted + [access] else t.bus.accepted)
      && (u.txn.TxnWaiting? <==> ans.accept && !ans.done)
  }

  lemma MemoryStageMoves(t: P.State, ans: DataAnswer)
    requires OwnTransaction(t) && t.wb.None? && MemoryStageOn(t, ans).Ok?
    ensures DataMoved(t, ans, MemoryStageOn(t, ans).state)
  {
    hide Isa.Aligned, Isa.Perform, Isa.BytesAt, P.Loaded;
  }

  /** EXE and the front end do not touch the data side. */
  lemma ExecuteKeepsData(s: P.State)
    ensures P.ExecuteStage(s).Ok? ==> P.ExecuteStage(s).state.bus == s.bus && P.ExecuteStage(s).state.txn == s.txn
  {
    hide Uop.Compute, Uop.AluOperands, Uop.BranchTaken, Uop.MExtensionStall;
  }

  lemma FrontKeepsData(code: Isa.Program, s: P.State, inp: P.Input)
    ensures P.FrontEnd(code, s, inp).Ok? ==>
              P.FrontEnd(code, s, inp).state.bus == s.bus && P.FrontEnd(code, s, inp).state.txn == s.txn
  {
    hide P.LoadUseHazard, P.OpcodeOf, Uop.Decode, Uop.PredictedNext;
  }

  lemma TickMoves(code: Isa.Program, pc: Word, m: Memory, s: P.State, inp: P.Input, ans: DataAnswer)
    requires T.Reachable(code, pc, m, s) && TickOn(code, s, inp, ans).Ok?
    ensures DataMoved(P.WriteBack(P.Open(s).state), ans, TickOn(code, s, inp, ans).state)
  {
    OpenKeepsData(code, pc, m, s);
    ReachableTransaction(code, pc, m, s);
    var t := P.WriteBack(P.Open(s).state);
    hide T.Reachable, MemoryStageOn, P.ExecuteStage, P.FrontEnd, P.Open, P.WriteBack;
    MemoryStageMoves(t, ans);
    var u := MemoryStageOn(t, ans).state;
    ExecuteKeepsData(u);
    FrontKeepsData(code, P.ExecuteStage(u).state, inp);
  }

  // ---------- The data cache's answer ----------

  /** The bus records the requests in order: it is the flat memory they make of the initial one. */
  lemma BusIsFlat(code: Isa.Program, pc: Word, m: Memory, s: P.State)
    requires T.Reachable(code, pc, m, s)
    ensures s.bus.mem == AfterAll(m, Requests(s.bus.accepted))
    ensures forall i :: 0 <= i < |s.bus.accepted| ==> Isa.Aligned(s.bus.accepted[i])
  {
    hide T.Reachable, T.Machine, Isa.Step, Isa.Aligned, AfterAll, Requests;
    T.AccessesInProgramOrder(code, pc, m, s);
    var k := s.hpm.retired + Proof.Count(s.wb);
    MemoryIsItsAccesses(code, pc, m, if s.txn.TxnWaiting? then k + 1 else k);
  }

  /** The requests of aligned accesses pass the alignment check of L1. */
  lemma AlignedPasses(s: System, access: Isa.Access)
    requires SystemOk(s) && Isa.Aligned(access)
    ensures CacheConfig.AlignmentOk(RequestFor(access).addr, RequestFor(access).Len(), s.l1.g.blockSize)
  {
    hide SystemOk;
  }

  /** A registration by the processor is accepted or leaves everything as it was. */
  lemma SendFollows(h: History, m: Memory, access: Isa.Access, random: nat)
    requires DataOk(h, m) && MayRegister(h) && Isa.Aligned(access)
    ensures Working(h.system)
    ensures var r := DataPhase(h, SendAccess(access), random);
            && r.Answered? && DataOk(r.data, m)
            && r.data.accepted == (if r.ans.accept then h.accepted + [RequestFor(access)] else h.accepted)
            && (!r.ans.accept ==> r.data == h)
            && r.ans == Poll(r.data.system, r.ans.accept)
            && (r.ans.accept <==> h.system.l1.fsm.Idle?)
  {
    hide SystemOk, FollowsFlat, Aborts.Suggested, Isa.Aligned, CacheConfig.AlignmentOk, Step, C.TryRegister;
    var req := RequestFor(access);
    OkMeansShapes(h.system);
    AlignedPasses(h.system, access);
    var e := CpuRegister(req, random);
    RegistersWell(h.system, req, random);
    CpuEvent(h.system, req, random);
    Aborts.StepKeepsSuggested(h.system, e);
    if h.system.l1.fsm.Idle? {
      AcceptedFollows(h, req, random, m);
    }
  }

  lemma RegistersWell(s: System, req: Request, random: nat)
    requires SystemOk(s) && CacheConfig.AlignmentOk(req.addr, req.Len(), s.l1.g.blockSize)
    ensures Working(s) && Step(s, CpuRegister(req, random)).Next?
    ensures C.TryRegister(s.l1, CPU, req, random).0 <==> s.l1.fsm.Idle?
  {
    hide CacheProof.Invariant, CacheConfig.AlignmentOk, C.TryRegister, BelowL1, BelowL2;
    CachePort.RegisterIsPortStep(s.l1, BelowL1(s), CPU, req, random);
  }

  /** The bytes the hierarchy answers with are those the pipeline was proved with. */
  lemma SentBytes(code: Isa.Program, pc: Word, m: Memory, s: P.State, access: Isa.Access, h: History, ans: DataAnswer)
    requires T.Reachable(code, pc, m, s) && DataOk(h, m) && Isa.Aligned(access)
    requires ans == Poll(h.system, ans.accept)
    requires ans.accept ==> h.accepted == Requests(s.bus.accepted + [access])
    ensures SentOk(s.bus, access, ans)
  {
    hide T.Reachable, SystemOk, FollowsFlat, Isa.Aligned, Isa.BytesAt, FlatMemory, AfterAll, Requests;
    var accesses := s.bus.accepted + [access];
    assert accesses[..|accesses| - 1] == s.bus.accepted;
    BusIsFlat(code, pc, m, s);
    if ans.accept && ans.done {
      FinishedAnswer(h, m, accesses);
    }
  }

  lemma WaitedBytes(code: Isa.Program, pc: Word, m: Memory, s: P.State, h: History)
    requires T.Reachable(code, pc, m, s) && DataOk(h, m) && InStep(s, h) && s.txn.TxnWaiting?
    ensures CPU in h.system.l1.done && s.txn.access.Load? ==> h.system.l1.done[CPU] == s.txn.bytes
  {
    hide T.Reachable, SystemOk, FollowsFlat, Isa.Aligned, Isa.BytesAt, FlatMemory, AfterAll, Requests;
    WaitingFor(code, pc, m, s);
    BusIsFlat(code, pc, m, s);
    if CPU in h.system.l1.done {
      FinishedAnswer(h, m, s.bus.accepted);
    }
  }

  /** What the data phase of a cycle does, in terms of what MEM asked. */
  predicate Asked(call: DataCall, h: History, r: Answered) {
    && r.Answered?
    && match call
       case NoCall => r.data == h
       case PollAccess => r.data == h && r.ans == Poll(h.system, false)
       case SendAccess(access) =>
         && r.data.accepted == (if r.ans.accept then h.accepted + [RequestFor(access)] else h.accepted)
         && (!r.ans.accept ==> r.data == h)
         && r.ans == Poll(r.data.system, r.ans.accept)
         && (r.ans.accept <==> h.system.l1.fsm.Idle?)
  }

  lemma PhaseFollows(code: Isa.Program, pc: Word, m: Memory, j: Joint, random: nat)
    requires JointOk(code, pc, m, j)
    ensures Working(j.data.system)
    ensures var r := DataPhase(j.data, CycleCall(j.cpu), random);
            Asked(CycleCall(j.cpu), j.data, r) && DataOk(r.data, m) && AnswerGood(j.cpu, r.ans)
  {
    hide T.Reachable, DataOk, Requests, Isa.Aligned, P.Open, P.WriteBack;
    OpenKeepsData(code, pc, m, j.cpu);
    ReachableTransaction(code, pc, m, j.cpu);
    assert Working(j.data.system) by { WorkingOf(j.data, m); }
    var t := P.WriteBack(P.Open(j.cpu).state);
    var r := DataPhase(j.data, CallOf(t), random);
    match CallOf(t) {
      case NoCall =>
      case PollAccess => WaitedBytes(code, pc, m, j.cpu, j.data);
      case SendAccess(access) =>
        SendFollows(j.data, m, access, random);
        RequestsPush(j.cpu.bus.accepted, access);
        SentBytes(code, pc, m, j.cpu, access, r.data, r.ans);
    }
  }

  lemma WorkingOf(h: History, m: Memory)
    requires DataOk(h, m)
    ensures Working(h.system)
  {
    OkMeansShapes(h.system);
    hide SystemOk;
  }

  // ---------- The events of a cycle ----------

  lemma EventKeepsDone(s: System, e: OtherEvent)
    requires Working(s) && Step(s, e).Next? && CPU in s.l1.done
    ensures CPU in Step(s, e).system.l1.done
  {
    hide C.Tick, C.TryRegister, MainTick, MainRegister, C.Shapes;
    if e.TickL1? {
      match C.LowerCall(s.l1) {
        case NoCall => CachePort.DoneStays(s.l1, C.Input(false, [], e.random));
        case Register(req) =>
          CachePort.DoneStays(s.l1, C.Input(C.TryRegister(s.l2, L1D, req, e.randomBelow).0, [], e.random));
        case Poll(_) =>
          CachePort.DoneStays(s.l1,
            if L1D in s.l2.done then C.Input(true, s.l2.done[L1D], e.random) else C.Input(false, [], e.random));
      }
    }
  }

  lemma {:induction false} EventsFollow(h: History, events: seq<OtherEvent>, m: Memory)
    requires DataOk(h, m) && Run(h, events).Running?
    ensures var h' := Run(h, events).h;
            && DataOk(h', m) && h'.accepted == h.accepted
            && (CPU in h.system.l1.done ==> CPU in h'.system.l1.done)
  {
    hide SystemOk, FollowsFlat, Step, C.Shapes, MainOk, Aborts.Suggested;
    if |events| > 0 {
      var before, e := events[..|events| - 1], events[|events| - 1];
      EventsFollow(h, before, m);
      var g := Run(h, before).h;
      assert RunStep(g, e).Running?;
      RunStepFollows(g, e, m);
      Aborts.StepKeepsSuggested(g.system, e);
      if CPU in g.system.l1.done {
        EventKeepsDone(g.system, e);
      }
    }
  }

  // ---------- Every cycle ----------

  /** The cycle of the pipeline that a cycle of the joint machine is. */
  lemma StillReachable(code: Isa.Program, pc: Word, m: Memory, s: P.State, inp: P.Input)
    requires T.Reachable(code, pc, m, s) && P.Tick(code, s, inp).Ok?
    ensures T.Reachable(code, pc, m, P.Tick(code, s, inp).state)
  {
    hide P.Tick;
    var inputs :| P.Run(code, P.Initial(pc, m), inputs) == P.Ok(s);
    assert (inputs + [inp])[..|inputs|] == inputs;
    assert P.Run(code, P.Initial(pc, m), inputs + [inp]) == P.Tick(code, s, inp);
  }

  lemma MovesInStep(t: P.State, h: History, r: Answered, u: P.State)
    requires OwnTransaction(t) && InStep(t, h) && Asked(CallOf(t), h, r) && DataMoved(t, r.ans, u)
    ensures InStep(u, r.data)
  {
    match CallOf(t) {
      case SendAccess(access) => RequestsPush(t.bus.accepted, access);
      case _ =>
    }
  }

  lemma JointTickKeeps(code: Isa.Program, pc: Word, m: Memory, j: Joint, cycle: Cycle)
    requires JointOk(code, pc, m, j) && JointTick(code, j, cycle).Going?
    ensures JointOk(code, pc, m, JointTick(code, j, cycle).joint)
  {
    hide T.Reachable, DataOk, TickOn, P.Tick, DataPhase, CycleCall, AnswerGood, InStep;
    PhaseFollows(code, pc, m, j, cycle.random);
    var r := DataPhase(j.data, CycleCall(j.cpu), cycle.random);
    TickAgrees(code, j.cpu, cycle.front, r.ans);
    StillReachable(code, pc, m, j.cpu, cycle.front.(dataAccept := r.ans.accept, dataDone := r.ans.done));
    DataKeepsStep(code, pc, m, j, cycle.front, r);
    EventsFollow(r.data, cycle.events, m);
    StaysInStep(TickOn(code, j.cpu, cycle.front, r.ans).state, r.data, Run(r.data, cycle.events).h);
  }

  lemma StaysInStep(cpu: P.State, h: History, h': History)
    requires InStep(cpu, h) && h'.accepted == h.accepted && (CPU in h.system.l1.done ==> CPU in h'.system.l1.done)
    ensures InStep(cpu, h')
  {}

  lemma DataKeepsStep(code: Isa.Program, pc: Word, m: Memory, j: Joint, inp: P.Input, r: Answered)
    requires JointOk(code, pc, m, j) && r.Answered? && Asked(CycleCall(j.cpu), j.data, r) && TickOn(code, j.cpu, inp, r.ans).Ok?
    ensures InStep(TickOn(code, j.cpu, inp, r.ans).state, r.data)
  {
    hide T.Reachable, DataOk, TickOn, Asked, DataMoved, MayRegister;
    OpenKeepsData(code, pc, m, j.cpu);
    ReachableTransaction(code, pc, m, j.cpu);
    TickMoves(code, pc, m, j.cpu, inp, r.ans);
    hide P.Open, P.WriteBack;
    MovesInStep(P.WriteBack(P.Open(j.cpu).state), j.data, r, TickOn(code, j.cpu, inp, r.ans).state);
  }

  /** The joint machine started on a program at `pc`, over memory hierarchy `s`. */
  function JointStart(pc: Word, s: System): Joint
    requires MainOk(s.main)
  {
    Joint(P.Initial(pc, Padded(s.main.Data())), History(s, []))
  }

  lemma {:induction false} JointRunKeeps(code: Isa.Program, pc: Word, s: System, cycles: seq<Cycle>)
    requires Fresh(s) && JointRun(code, JointStart(pc, s), cycles).Going?
    ensures JointOk(code, pc, Padded(s.main.Data()), JointRun(code, JointStart(pc, s), cycles).joint)
  {
    var m, start := Padded(s.main.Data()), JointStart(pc, s);
    hide Fresh, JointTick, JointOk;
    if |cycles| == 0 {
      StartOk(code, pc, s);
    } else {
      JointRunKeeps(code, pc, s, cycles[..|cycles| - 1]);
      JointTickKeeps(code, pc, m, JointRun(code, start, cycles[..|cycles| - 1]).joint, cycles[|cycles| - 1]);
    }
  }

  lemma StartOk(code: Isa.Program, pc: Word, s: System)
    requires Fresh(s)
    ensures JointOk(code, pc, Padded(s.main.Data()), JointStart(pc, s))
  {
    var m := Padded(s.main.Data());
    FreshIsFlat(s);
    Aborts.FreshSuggested(s);
    assert P.Run(code, P.Initial(pc, m), []) == P.Ok(P.Initial(pc, m));
    assert FollowsFlat(History(s, []), m);
    hide Fresh, SystemOk, FollowsFlat, Aborts.Suggested, P.Run, FlatMemory;
  }

  // ---------- When MEM is served ----------

  /** An access that waits leaves MEM in the first cycle in which L1 has it done, and not before. */
  lemma LeavesWhenDone(code: Isa.Program, pc: Word, m: Memory, j: Joint, cycle: Cycle)
    requires JointOk(code, pc, m, j) && JointTick(code, j, cycle).Going? && j.cpu.txn.TxnWaiting?
    ensures JointTick(code, j, cycle).joint.cpu.txn.TxnWaiting? <==> CPU !in j.data.system.l1.done
  {
    hide T.Reachable, DataOk, TickOn, AnswerGood, InStep;
    PhaseFollows(code, pc, m, j, cycle.random);
    var r := DataPhase(j.data, CycleCall(j.cpu), cycle.random);
    OpenKeepsData(code, pc, m, j.cpu);
    ReachableTransaction(code, pc, m, j.cpu);
    TickMoves(code, pc, m, j.cpu, cycle.front, r.ans);
    hide P.Open, P.WriteBack;
  }

  /** An access that has not been sent is accepted in the first cycle in which it finds L1 idle, and not before. */
  lemma SendsWhenIdle(code: Isa.Program, pc: Word, m: Memory, j: Joint, cycle: Cycle)
    requires JointOk(code, pc, m, j) && JointTick(code, j, cycle).Going? && !j.cpu.txn.TxnWaiting?
    requires j.cpu.mem.Some? && j.cpu.mem.value.MemoryAccess().Some? && Isa.Aligned(j.cpu.mem.value.MemoryAccess().value)
    ensures JointTick(code, j, cycle).joint.cpu.bus.accepted ==
              if j.data.system.l1.fsm.Idle? then j.cpu.bus.accepted + [j.cpu.mem.value.MemoryAccess().value]
              else j.cpu.bus.accepted
  {
    hide T.Reachable, DataOk, TickOn, AnswerGood, InStep, Isa.Aligned, Uop.MicroOp.MemoryAccess;
    PhaseFollows(code, pc, m, j, cycle.random);
    var r := DataPhase(j.data, CycleCall(j.cpu), cycle.random);
    OpenKeepsData(code, pc, m, j.cpu);
    ReachableTransaction(code, pc, m, j.cpu);
    TickMoves(code, pc, m, j.cpu, cycle.front, r.ans);
    hide P.Open, P.WriteBack;
  }

  // ---------- The theorems ----------

  /** Registers and halt flag are those of the sequential machine after the retired instructions, L1 has accepted
      exactly the requests of its accesses, in order and each once, and whenever none is being waited for the
      hierarchy presents its memory. */
  predicate IsSequential(code: Isa.Program, pc: Word, m: Memory, j: Joint) {
    var n := j.cpu.hpm.retired;
    var k := n + Proof.Count(j.cpu.wb);
    && j.cpu.regs == T.Machine(code, pc, m, n).regs
    && j.cpu.halt == T.Machine(code, pc, m, n).halted
    && j.data.accepted == Requests(T.Machine(code, pc, m, if j.cpu.txn.TxnWaiting? then k + 1 else k).accesses)
    && Working(j.data.system)
    && (!j.cpu.txn.TxnWaiting? ==> FlatMemory(j.data.system) == T.Machine(code, pc, m, k).mem)
  }

  /** End to end, over every run of the processor and a fresh hierarchy of a supported configuration together, for any
      latencies, predictions and instruction-cache traffic: the machine is the sequential one. */
  lemma JointIsSequential(code: Isa.Program, pc: Word, s: System, cycles: seq<Cycle>)
    requires Fresh(s) && JointRun(code, JointStart(pc, s), cycles).Going?
    ensures IsSequential(code, pc, Padded(s.main.Data()), JointRun(code, JointStart(pc, s), cycles).joint)
  {
    hide JointOk, IsSequential, JointRun;
    JointRunKeeps(code, pc, s, cycles);
    OkIsSequential(code, pc, Padded(s.main.Data()), JointRun(code, JointStart(pc, s), cycles).joint);
  }

  lemma OkIsSequential(code: Isa.Program, pc: Word, m: Memory, j: Joint)
    requires JointOk(code, pc, m, j)
    ensures IsSequential(code, pc, m, j)
  {
    hide T.Reachable, T.Machine, DataOk, FlatMemory, Requests, MayRegister;
    T.PipelineRefinesIsa(code, pc, m, j.cpu);
    T.AccessesInProgramOrder(code, pc, m, j.cpu);
    WorkingOf(j.data, m);
    if !j.cpu.txn.TxnWaiting? {
      RestingIsFlat(code, pc, m, j);
    }
  }

  lemma RestingIsFlat(code: Isa.Program, pc: Word, m: Memory, j: Joint)
    requires JointOk(code, pc, m, j) && !j.cpu.txn.TxnWaiting?
    ensures Working(j.data.system) && FlatMemory(j.data.system) == j.cpu.bus.mem
  {
    assert AfterAll(m, []) == m;
    hide T.Reachable, SystemOk, AfterAll, Requests, FlatMemory;
    OkMeansShapes(j.data.system);
    BusIsFlat(code, pc, m, j.cpu);
    if |j.data.accepted| > 0 {
      DoneMeansPerformed(j.data, m);
    }
  }

  /** Why a run stops: a cycle aborts the processor for an illegal word, FENCE or a misaligned address only; and it
      stops the hierarchy by one of its events, never by what the processor asks of it. */
  lemma JointStops(code: Isa.Program, pc: Word, s: System, cycles: seq<Cycle>, cycle: Cycle)
    requires Fresh(s) && JointRun(code, JointStart(pc, s), cycles).Going?
    ensures var j := JointRun(code, JointStart(pc, s), cycles).joint;
            StopsForCause(j, cycle, JointTick(code, j, cycle))
  {
    hide JointOk, JointRun, JointTick, StopsForCause;
    JointRunKeeps(code, pc, s, cycles);
    CycleStops(code, pc, Padded(s.main.Data()), JointRun(code, JointStart(pc, s), cycles).joint, cycle);
  }

  ghost predicate StopsForCause(j: Joint, cycle: Cycle, r: Outcome) {
    match r
    case CpuAborts(p) => p in {P.IllegalInstruction, P.FenceFetched, P.MisalignedFetch, P.MisalignedData}
    case MemoryAborts =>
      && Working(j.data.system)
      && var phase := DataPhase(j.data, CycleCall(j.cpu), cycle.random);
         phase.Answered? && exists i: nat :: StoppedBy(phase.data, cycle.events, i)
    case Going(_) => true
  }

  lemma CycleStops(code: Isa.Program, pc: Word, m: Memory, j: Joint, cycle: Cycle)
    requires JointOk(code, pc, m, j)
    ensures StopsForCause(j, cycle, JointTick(code, j, cycle))
  {
    hide T.Reachable, DataOk, TickOn, P.Tick, DataPhase, CycleCall, AnswerGood, StoppedBy, InStep;
    PhaseFollows(code, pc, m, j, cycle.random);
    var r := DataPhase(j.data, CycleCall(j.cpu), cycle.random);
    TickAgrees(code, j.cpu, cycle.front, r.ans);
    if TickOn(code, j.cpu, cycle.front, r.ans).Abort? {
      T.AbortsOnlyOnBadPrograms(code, pc, m, j.cpu, cycle.front.(dataAccept := r.ans.accept, dataDone := r.ans.done));
    } else if Run(r.data, cycle.events).Stopped? {
      EventsStop(r.data, cycle.events, m);
    }
  }

  /** The i-th of these events stops the hierarchy, for one of the causes of its parts. */
  predicate StoppedBy(h: History, events: seq<OtherEvent>, i: nat) {
    && i < |events| && Run(h, events[..i]).Running?
    && var g := Run(h, events[..i]).h;
       SystemOk(g.system) && RunStep(g, events[i]).Stopped? && Aborts.CauseInRun(g.system, events[i])
  }

  lemma {:induction false} EventsStop(h: History, events: seq<OtherEvent>, m: Memory)
    requires DataOk(h, m) && Run(h, events).Stopped?
    ensures exists i: nat :: StoppedBy(h, events, i)
  {
    hide SystemOk, FollowsFlat, RunStep, Aborts.Suggested, Aborts.CauseInRun;
    var n := |events| - 1;
    if Run(h, events[..n]).Stopped? {
      EventsStop(h, events[..n], m);
      var i: nat :| StoppedBy(h, events[..n], i);
      assert events[..n][..i] == events[..i];
      assert StoppedBy(h, events, i);
    } else {
      EventsFollow(h, events[..n], m);
      Aborts.StopHasCause(Run(h, events[..n]).h, events[n]);
      assert StoppedBy(h, events, n);
    }
  }
}
