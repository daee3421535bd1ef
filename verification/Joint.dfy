/** The processor and the memory hierarchy as one machine. In every cycle the data cache of the hierarchy decides whether
    the access in MEM is accepted and whether it is done, and supplies the loaded bytes; then the caches and the main
    memory move, in any order. Every run of it is a run of the pipeline, and of the hierarchy, in step. */
module JointMachine {
  import opened Words
  import Isa
  import Uop
  import P = Pipeline
  import C = Cache
  import opened MainPort
  import opened Hierarchy
  import opened HierarchyProof
  import opened EndToEnd

  // ---------- The pipeline over a data cache that supplies the bytes ----------

  /** What the data cache answers in one cycle; `bytes` are those of the finished request. */
  datatype DataAnswer = DataAnswer(accept: bool, done: bool, bytes: seq<Byte>)

  /** The bus, and the bytes a waiting transaction records, are a log here: nothing reads them. */
  function SendOn(bus: P.Bus, access: Isa.Access, ans: DataAnswer): P.Progressed {
    if !Isa.Aligned(access) then P.Misaligned
    else if !ans.accept then P.Progressed(P.TxnSending(access), bus, P.Pending)
    else
      var bus' := P.Bus(Isa.Perform(bus.mem, access), bus.accepted + [access]);
      if ans.done then
        P.Progressed(P.TxnComplete(P.Loaded(access, ans.bytes)), bus', P.Complete(P.Loaded(access, ans.bytes)))
      else
        P.Progressed(P.TxnWaiting(access, Isa.BytesAt(bus.mem, access.addr, Isa.Len(access.width))), bus', P.Pending)
  }

  function ProgressOn(txn: P.Transaction, bus: P.Bus, access: Isa.Access, ans: DataAnswer): P.Progressed {
    match txn
    case TxnIdle => SendOn(bus, access, ans)
    case TxnSending(sent) => SendOn(bus, sent, ans)
    case TxnWaiting(sent, _) =>
      if ans.done then P.Progressed(P.TxnComplete(P.Loaded(sent, ans.bytes)), bus, P.Complete(P.Loaded(sent, ans.bytes)))
      else P.Progressed(txn, bus, P.Pending)
    case TxnComplete(loaded) => P.Progressed(txn, bus, P.Complete(loaded))
  }

  function MemoryStageOn(s: P.State, ans: DataAnswer): P.Outcome {
    if s.mem.None? then P.Ok(s)
    else
      var op := s.mem.value;
      var access := op.MemoryAccess();
      if access.None? then P.Ok(P.LeaveMem(s))
      else if access.value.Store? && op.rs2.None? then P.Abort(P.MissingOperand)
      else
        match ProgressOn(s.txn, s.bus, access.value, ans)
        case Misaligned => P.Abort(P.MisalignedData)
        case Progressed(txn, bus, Pending) => P.Ok(s.(txn := txn, bus := bus))
        case Progressed(txn, bus, Complete(loaded)) =>
          var op' := if loaded.Some? then op.(rdValue := loaded) else op;
          P.Ok(P.LeaveMem(s.(txn := txn, bus := bus, mem := Some(op'))))
  }

  function UpToOn(s: P.State, ans: DataAnswer): P.Outcome {
    match P.Open(s)
    case Abort(p) => P.Abort(p)
    case Ok(s1) => MemoryStageOn(P.WriteBack(s1), ans)
  }

  function TickOn(code: Isa.Program, s: P.State, inp: P.Input, ans: DataAnswer): P.Outcome {
    match UpToOn(s, ans)
    case Abort(p) => P.Abort(p)
    case Ok(s1) =>
      match P.ExecuteStage(s1)
      case Abort(p) => P.Abort(p)
      case Ok(s2) => P.FrontEnd(code, s2, inp)
  }

  /** The bytes supplied are those the bus would give. */
  predicate AnswerOk(txn: P.Transaction, bus: P.Bus, access: Isa.Access, ans: DataAnswer) {
    match txn
    case TxnIdle => SentOk(bus, access, ans)
    case TxnSending(sent) => SentOk(bus, sent, ans)
    case TxnWaiting(sent, bytes) => ans.done && sent.Load? ==> ans.bytes == bytes
    case TxnComplete(_) => true
  }

  predicate SentOk(bus: P.Bus, access: Isa.Access, ans: DataAnswer) {
    ans.accept && ans.done && access.Load? ==> ans.bytes == Isa.BytesAt(bus.mem, access.addr, Isa.Len(access.width))
  }

  predicate AnswerGood(s: P.State, ans: DataAnswer) {
    P.Open(s).Ok? ==>
      var t := P.WriteBack(P.Open(s).state);
      t.mem.Some? && t.mem.value.MemoryAccess().Some? ==> AnswerOk(t.txn, t.bus, t.mem.value.MemoryAccess().value, ans)
  }

  /** With such bytes the cycle is the pipeline's. */
  lemma TickAgrees(code: Isa.Program, s: P.State, inp: P.Input, ans: DataAnswer)
    requires AnswerGood(s, ans)
    ensures TickOn(code, s, inp, ans) == P.Tick(code, s, inp.(dataAccept := ans.accept, dataDone := ans.done))
  {
    hide P.Open, P.WriteBack, P.ExecuteStage, P.LoadUseHazard, P.DecodeStage;
    var inp' := inp.(dataAccept := ans.accept, dataDone := ans.done);
    if P.Open(s).Ok? {
      StageAgrees(P.WriteBack(P.Open(s).state), inp', ans);
    }
    hide P.MemoryStage, MemoryStageOn;
    assert P.UpToExecute(s, inp') == UpToOn(s, ans);
    if UpToOn(s, ans).Ok? && P.ExecuteStage(UpToOn(s, ans).state).Ok? {
      FrontIgnoresData(code, P.ExecuteStage(UpToOn(s, ans).state).state, inp, inp');
    }
    hide P.FrontEnd, UpToOn, P.UpToExecute;
  }

  lemma StageAgrees(s: P.State, inp: P.Input, ans: DataAnswer)
    requires inp.dataAccept == ans.accept && inp.dataDone == ans.done
    requires s.mem.Some? && s.mem.value.MemoryAccess().Some? ==>
               AnswerOk(s.txn, s.bus, s.mem.value.MemoryAccess().value, ans)
    ensures MemoryStageOn(s, ans) == P.MemoryStage(s, inp)
  {
    if s.mem.Some? && s.mem.value.MemoryAccess().Some? {
      ProgressAgrees(s.txn, s.bus, s.mem.value.MemoryAccess().value, ans);
    }
    hide ProgressOn, P.Progress, AnswerOk, P.LeaveMem;
  }

  lemma ProgressAgrees(txn: P.Transaction, bus: P.Bus, access: Isa.Access, ans: DataAnswer)
    requires AnswerOk(txn, bus, access, ans)
    ensures ProgressOn(txn, bus, access, ans) == P.Progress(txn, bus, access, ans.accept, ans.done)
  {
    hide Isa.Perform, Isa.BytesAt;
  }

  lemma FrontIgnoresData(code: Isa.Program, s: P.State, inp: P.Input, inp': P.Input)
    requires inp' == inp.(dataAccept := inp'.dataAccept, dataDone := inp'.dataDone)
    ensures P.FrontEnd(code, s, inp') == P.FrontEnd(code, s, inp)
  {
    hide P.LoadUseHazard, P.DecodeStage, P.LeaveFetch, P.InsertBubble;
  }

  // ---------- The log is not read ----------

  predicate SameTxn(x: P.Transaction, y: P.Transaction) {
    x == y || (x.TxnWaiting? && y.TxnWaiting? && x.access == y.access)
  }

  /** The same processor with another log. */
  predicate SameButLog(s: P.State, t: P.State) {
    t == s.(bus := t.bus, txn := t.txn) && SameTxn(s.txn, t.txn)
  }

  predicate SameOutcome(r: P.Outcome, q: P.Outcome) {
    match r
    case Abort(p) => q == P.Abort(p)
    case Ok(s) => q.Ok? && SameButLog(s, q.state)
  }

  lemma OpenIgnoresLog(s: P.State, t: P.State)
    requires SameButLog(s, t)
    ensures SameOutcome(P.Open(s), P.Open(t))
  {
    hide P.Forwarded, P.Recover, SameTxn;
    var counted := s.hpm.(cycles := s.hpm.cycles + 1);
    RecoverIgnoresLog(s.(hpm := counted), t.(hpm := counted));
  }

  lemma RecoverIgnoresLog(s: P.State, t: P.State)
    requires SameButLog(s, t)
    ensures SameOutcome(P.Recover(s), P.Recover(t))
  {
    FlushIgnoresLog(s.(ifPc := s.destination, fetch := P.FetchIdle, ifBuffer := None),
                    t.(ifPc := s.destination, fetch := P.FetchIdle, ifBuffer := None));
    hide P.FlushWb, P.FlushMem, P.FlushExe, P.FlushId;
  }

  lemma FlushIgnoresLog(s: P.State, t: P.State)
    requires SameButLog(s, t)
    ensures SameButLog(P.FlushWb(P.FlushMem(P.FlushExe(P.FlushId(s)))), P.FlushWb(P.FlushMem(P.FlushExe(P.FlushId(t)))))
  {
    assert SameButLog(P.FlushExe(P.FlushId(s)), P.FlushExe(P.FlushId(t)));
    FlushRestIgnoresLog(P.FlushExe(P.FlushId(s)), P.FlushExe(P.FlushId(t)));
    hide P.FlushWb, P.FlushMem, P.FlushExe, P.FlushId, SameButLog;
  }

  lemma FlushRestIgnoresLog(s: P.State, t: P.State)
    requires SameButLog(s, t)
    ensures SameButLog(P.FlushWb(P.FlushMem(s)), P.FlushWb(P.FlushMem(t)))
  {}

  predicate SameProgress(r: P.Progressed, q: P.Progressed) {
    if r.Misaligned? then q.Misaligned? else q.Progressed? && SameTxn(r.txn, q.txn) && r.status == q.status
  }

  lemma ProgressIgnoresLog(x: P.Transaction, y: P.Transaction, b: P.Bus, c: P.Bus, access: Isa.Access, ans: DataAnswer)
    requires SameTxn(x, y)
    ensures SameProgress(ProgressOn(x, b, access, ans), ProgressOn(y, c, access, ans))
  {
    hide Isa.Perform, Isa.BytesAt, Isa.Aligned, P.Loaded;
  }

  lemma LeaveIgnoresLog(s: P.State, t: P.State)
    requires SameButLog(s, t)
    ensures SameButLog(P.LeaveMem(s), P.LeaveMem(t))
  {}

  lemma MemoryIgnoresLog(s: P.State, t: P.State, ans: DataAnswer)
    requires SameButLog(s, t)
    ensures SameOutcome(MemoryStageOn(s, ans), MemoryStageOn(t, ans))
  {
    hide ProgressOn, Uop.MicroOp.MemoryAccess, P.LeaveMem, SameTxn;
    LeaveIgnoresLog(s, t);
    if s.mem.Some? && s.mem.value.MemoryAccess().Some? {
      var access := s.mem.value.MemoryAccess().value;
      ProgressIgnoresLog(s.txn, t.txn, s.bus, t.bus, access, ans);
      var r, q := ProgressOn(s.txn, s.bus, access, ans), ProgressOn(t.txn, t.bus, access, ans);
      if r.Progressed? && r.status.Complete? {
        var op := if r.status.loaded.Some? then s.mem.value.(rdValue := r.status.loaded) else s.mem.value;
        LeaveIgnoresLog(s.(txn := r.txn, bus := r.bus, mem := Some(op)), t.(txn := q.txn, bus := q.bus, mem := Some(op)));
      }
    }
  }

  lemma WriteBackIgnoresLog(s: P.State, t: P.State)
    requires SameButLog(s, t)
    ensures SameButLog(P.WriteBack(s), P.WriteBack(t))
  {
    hide Isa.WriteReg, SameTxn;
  }

  lemma ResolveIgnoresLog(s: P.State, t: P.State, op: Uop.MicroOp)
    requires SameButLog(s, t)
    ensures SameOutcome(P.Resolve(s, op), P.Resolve(t, op))
  {
    hide Uop.BranchTaken, SameTxn;
  }

  /** EXE computes in this cycle. */
  predicate Computes(s: P.State) {
    && s.mem.None? && s.exe.Some? && !s.exe.value.inst.op.Ecall?
    && !(Uop.MExtensionStall(s.exe.value.inst.op).Some? && P.CountDown(s.countdown).None?)
  }

  function Computed(s: P.State): P.Outcome
    requires s.exe.Some?
  {
    match Uop.AluOperands(s.exe.value)
    case None => P.Abort(P.MissingOperand)
    case Some((a, b)) =>
      var left := if Uop.MExtensionStall(s.exe.value.inst.op).Some? then None else P.CountDown(s.countdown);
      P.Resolve(s.(countdown := left), Uop.Compute(s.exe.value, a, b))
  }

  lemma ExecuteIsComputed(s: P.State)
    requires Computes(s)
    ensures P.ExecuteStage(s) == Computed(s)
  {
    hide P.CountDown, P.Resolve, Uop.Compute, Uop.AluOperands, Uop.MExtensionStall;
  }

  lemma ComputedIgnoresLog(s: P.State, t: P.State)
    requires SameButLog(s, t) && s.exe.Some?
    ensures SameOutcome(Computed(s), Computed(t))
  {
    hide P.CountDown, P.Resolve, Uop.Compute, Uop.AluOperands, Uop.MExtensionStall, SameTxn;
    if Uop.AluOperands(s.exe.value).Some? {
      var (a, b) := Uop.AluOperands(s.exe.value).value;
      var left := if Uop.MExtensionStall(s.exe.value.inst.op).Some? then None else P.CountDown(s.countdown);
      ResolveIgnoresLog(s.(countdown := left), t.(countdown := left), Uop.Compute(s.exe.value, a, b));
    }
  }

  lemma ExecuteIgnoresLog(s: P.State, t: P.State)
    requires SameButLog(s, t)
    ensures SameOutcome(P.ExecuteStage(s), P.ExecuteStage(t))
  {
    if Computes(s) {
      hide P.ExecuteStage, Computed, P.CountDown, Uop.MExtensionStall, SameOutcome, SameTxn;
      ExecuteIsComputed(s);
      ExecuteIsComputed(t);
      ComputedIgnoresLog(s, t);
    } else {
      hide P.CountDown, P.Resolve, Uop.Compute, Uop.AluOperands, Uop.MExtensionStall, SameTxn;
    }
  }

  lemma DecodeIgnoresLog(s: P.State, t: P.State, stall: bool)
    requires SameButLog(s, t)
    ensures SameOutcome(P.DecodeStage(s, stall), P.DecodeStage(t, stall))
    ensures P.LoadUseHazard(s) == P.LoadUseHazard(t)
  {
    hide P.OpcodeOf, Uop.Decode, SameTxn;
  }

  lemma FetchIgnoresLog(code: Isa.Program, s: P.State, t: P.State, inp: P.Input)
    requires SameButLog(s, t)
    ensures SameOutcome(P.FetchStage(code, s, inp), P.FetchStage(code, t, inp))
  {
    hide P.OpcodeOf, Uop.PredictedNext, SameTxn;
  }

  lemma FrontIgnoresLog(code: Isa.Program, s: P.State, t: P.State, inp: P.Input)
    requires SameButLog(s, t)
    ensures SameOutcome(P.FrontEnd(code, s, inp), P.FrontEnd(code, t, inp))
  {
    hide P.LoadUseHazard, P.DecodeStage, P.FetchStage, SameTxn;
    if P.LoadUseHazard(s).Some? {
      var stall := P.LoadUseHazard(s).value;
      DecodeIgnoresLog(s, t, stall);
      if P.DecodeStage(s, stall).Ok? {
        FetchIgnoresLog(code, P.DecodeStage(s, stall).state, P.DecodeStage(t, stall).state, inp);
      }
    } else {
      DecodeIgnoresLog(s, t, false);
    }
  }

  /** No cycle reads the log: two processors that differ only in it do the same. So every loaded byte is one of the
      data cache's. */
  lemma TickIgnoresLog(code: Isa.Program, s: P.State, t: P.State, inp: P.Input, ans: DataAnswer)
    requires SameButLog(s, t)
    ensures SameOutcome(TickOn(code, s, inp, ans), TickOn(code, t, inp, ans))
  {
    hide SameButLog, P.Open, MemoryStageOn, P.WriteBack, P.ExecuteStage, P.FrontEnd;
    OpenIgnoresLog(s, t);
    if P.Open(s).Ok? {
      var s1, t1 := P.Open(s).state, P.Open(t).state;
      WriteBackIgnoresLog(s1, t1);
      MemoryIgnoresLog(P.WriteBack(s1), P.WriteBack(t1), ans);
      var r, q := MemoryStageOn(P.WriteBack(s1), ans), MemoryStageOn(P.WriteBack(t1), ans);
      if r.Ok? {
        ExecuteIgnoresLog(r.state, q.state);
        if P.ExecuteStage(r.state).Ok? {
          FrontIgnoresLog(code, P.ExecuteStage(r.state).state, P.ExecuteStage(q.state).state, inp);
        }
      }
    }
  }

  // ---------- One cycle of both ----------

  datatype Joint = Joint(cpu: P.State, data: History)

  datatype Outcome = Going(joint: Joint) | CpuAborts(panic: P.Panic) | MemoryAborts

  /** What MEM asks of the data cache in this cycle: to take an access, or whether the one it took is done. A
      misaligned access stops the processor before it is sent. */
  datatype DataCall = NoCall | SendAccess(access: Isa.Access) | PollAccess

  function CallOf(t: P.State): DataCall {
    if t.mem.None? || t.mem.value.MemoryAccess().None? then NoCall
    else
      match t.txn
      case TxnIdle => SendIfAligned(t.mem.value.MemoryAccess().value)
      case TxnSending(sent) => SendIfAligned(sent)
      case TxnWaiting(_, _) => PollAccess
      case TxnComplete(_) => NoCall
  }

  function SendIfAligned(access: Isa.Access): DataCall {
    if Isa.Aligned(access) then SendAccess(access) else NoCall
  }

  function CycleCall(s: P.State): DataCall {
    match P.Open(s)
    case Abort(_) => NoCall
    case Ok(s1) => CallOf(P.WriteBack(s1))
  }

  datatype Answered = Answered(data: History, ans: DataAnswer) | Refused

  predicate Working(s: System) {
    C.Shapes(s.l1) && C.Shapes(s.l2) && MainOk(s.main)
  }

  /** Whether the processor's request is done, and its bytes. */
  function Poll(s: System, accept: bool): DataAnswer {
    if CPU in s.l1.done then DataAnswer(accept, true, s.l1.done[CPU]) else DataAnswer(accept, false, [])
  }

  function DataPhase(h: History, call: DataCall, random: nat): Answered
    requires Working(h.system)
  {
    match call
    case NoCall => Answered(h, DataAnswer(false, false, []))
    case PollAccess => Answered(h, Poll(h.system, false))
    case SendAccess(access) =>
      var req := RequestFor(access);
      match Step(h.system, CpuRegister(req, random))
      case Aborted => Refused
      case Next(t) =>
        var ok := C.TryRegister(h.system.l1, CPU, req, random).0;
        Answered(History(t, if ok then h.accepted + [req] else h.accepted), Poll(t, ok))
  }

  /** What else happens to the hierarchy: the caches and the main memory tick, and the instruction cache registers
      loads at L2. */
  type OtherEvent = e: Event | !e.CpuRegister? witness TickMain

  /** A cycle's outside world: what the instruction cache and the predictor answer, the random numbers, and the
      events in the hierarchy after the stages have run, in any number and order. */
  datatype Cycle = Cycle(front: P.Input, random: nat, events: seq<OtherEvent>)

  function JointTick(code: Isa.Program, j: Joint, cycle: Cycle): Outcome {
    if !Working(j.data.system) then MemoryAborts
    else
      match DataPhase(j.data, CycleCall(j.cpu), cycle.random)
      case Refused => MemoryAborts
      case Answered(data, ans) =>
        match TickOn(code, j.cpu, cycle.front, ans)
        case Abort(p) => CpuAborts(p)
        case Ok(cpu) =>
          match Run(data, cycle.events)
          case Stopped => MemoryAborts
          case Running(data') => Going(Joint(cpu, data'))
  }

  function JointRun(code: Isa.Program, j: Joint, cycles: seq<Cycle>): Outcome {
    if |cycles| == 0 then Going(j)
    else
      match JointRun(code, j, cycles[..|cycles| - 1])
      case Going(j') => JointTick(code, j', cycles[|cycles| - 1])
      case stop => stop
  }
}
