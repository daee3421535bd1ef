/** The processor on top of the memory hierarchy. The pipeline was proved against a data memory that performs a
    request when it accepts it, and the hierarchy performs it later; here the two meet: the requests the pipeline
    issues (request_for in memory_access.rs) get from the hierarchy the answers the pipeline was proved with, and the
    memory the hierarchy presents is the sequential machine's. */
module EndToEnd {
  import opened Words
  import CacheConfig
  import Isa
  import Uop
  import UopProof
  import P = Pipeline
  import Proof = PipelineProof
  import T = PipelineTheorems
  import opened MemoryPort
  import opened Hierarchy
  import opened HierarchyProof

  /** The request for an access: a load of its bytes, or a store of the value's low bytes, little-endian. */
  function RequestFor(a: Isa.Access): Request {
    match a
    case Load(addr, width, _) => Load(addr, Isa.Len(width))
    case Store(addr, width, value) => Store(addr, ToLe(value, Isa.Len(width)))
  }

  function Requests(accesses: seq<Isa.Access>): (reqs: seq<Request>)
    ensures |reqs| == |accesses| && forall i :: 0 <= i < |reqs| ==> reqs[i] == RequestFor(accesses[i])
  {
    seq(|accesses|, i requires 0 <= i < |accesses| => RequestFor(accesses[i]))
  }

  lemma RequestsPush(accesses: seq<Isa.Access>, a: Isa.Access)
    ensures Requests(accesses + [a]) == Requests(accesses) + [RequestFor(a)]
  {
    assert (accesses + [a])[..|accesses|] == accesses;
  }

  /** The request means the access: same memory afterwards, and a load delivers its bytes. */
  lemma RequestMeansAccess(m: Memory, a: Isa.Access)
    requires Isa.Aligned(a)
    ensures var req := RequestFor(a);
            && req.InSpace() && req.Len() == Isa.Len(a.width)
            && Apply(m, req) == Isa.Perform(m, a)
            && Answer(m, req) == if a.Load? then Isa.BytesAt(m, a.addr, Isa.Len(a.width)) else []
  {
    hide Patch;
    assert TWO_32 % Isa.Len(a.width) == 0;
  }

  /** The machine's memory is what its accesses, performed in order, make of the initial memory. */
  lemma {:induction false} MemoryIsItsAccesses(code: Isa.Program, pc: Word, m: Memory, k: nat)
    ensures var a := T.Machine(code, pc, m, k);
            && AfterAll(m, Requests(a.accesses)) == a.mem
            && forall i :: 0 <= i < |a.accesses| ==> Isa.Aligned(a.accesses[i])
  {
    if k > 0 {
      MemoryIsItsAccesses(code, pc, m, k - 1);
      hide Isa.Step, Requests, AfterAll, Isa.Aligned, T.Machine;
      StepLogs(code, T.Machine(code, pc, m, k - 1), m);
      MachineStep(code, pc, m, k);
    } else {
      assert T.Machine(code, pc, m, 0).accesses == [];
    }
  }

  lemma MachineStep(code: Isa.Program, pc: Word, m: Memory, k: nat)
    requires k > 0
    ensures T.Machine(code, pc, m, k) == Isa.Step(code, T.Machine(code, pc, m, k - 1))
  {
    hide Isa.Step;
  }

  lemma StepLogs(code: Isa.Program, a: Isa.Arch, m: Memory)
    requires AfterAll(m, Requests(a.accesses)) == a.mem
    ensures var b := Isa.Step(code, a);
            && AfterAll(m, Requests(b.accesses)) == b.mem
            && (b.accesses == a.accesses ||
                exists x :: b.accesses == a.accesses + [x] && Isa.Aligned(x))
  {
    hide Isa.NextPc, Isa.RegWrite, Isa.WriteReg, Isa.AccessOf, Requests, AfterAll, Isa.Perform, Isa.Aligned, Apply, RequestFor;
    var i := code(a.pc);
    var access := Isa.AccessOf(i, a.regs[i.rs1], a.regs[i.rs2]);
    if access.Some? && !a.trapped && !Isa.Traps(code, a) {
      RequestsPush(a.accesses, access.value);
      RequestMeansAccess(a.mem, access.value);
      LastApplied(m, Requests(a.accesses), RequestFor(access.value));
      assert Isa.Step(code, a).accesses == a.accesses + [access.value];
    }
  }

  lemma LastApplied(m: Memory, reqs: seq<Request>, req: Request)
    ensures AfterAll(m, reqs + [req]) == Apply(AfterAll(m, reqs), req)
  {
    assert (reqs + [req])[..|reqs|] == reqs;
  }

  /** What the pipeline's data bus has recorded of the access being waited for. */
  lemma WaitingFor(code: Isa.Program, pc: Word, m: Memory, s: P.State)
    requires T.Reachable(code, pc, m, s) && s.txn.TxnWaiting?
    ensures var n := |s.bus.accepted|;
            && n > 0 && s.bus.accepted[n - 1] == s.txn.access && Isa.Aligned(s.txn.access)
            && s.txn.bytes ==
                 Isa.BytesAt(AfterAll(m, Requests(s.bus.accepted[..n - 1])), s.txn.access.addr, Isa.Len(s.txn.access.width))
  {
    hide T.Reachable, Isa.Step, Isa.Perform, Isa.BytesAt, Requests, AfterAll;
    T.ReachableKeeps(code, pc, m, s);
    T.InFlight(code, Isa.Initial(pc, m), s);
    MemoryIsItsAccesses(code, pc, m, s.hpm.retired + Proof.Count(s.wb));
    var a := T.Machine(code, pc, m, s.hpm.retired + Proof.Count(s.wb));
    assert s.bus.accepted == a.accesses + [s.txn.access];
    assert s.bus.accepted[..|a.accesses|] == a.accesses;
  }

  /** The answer the sequential order gives to the last of a list of accesses, made from memory `m`. */
  function LastAnswer(m: Memory, accesses: seq<Isa.Access>): seq<Byte>
    requires |accesses| > 0
  {
    var n := |accesses| - 1;
    var last := accesses[n];
    if last.Load? then Isa.BytesAt(AfterAll(m, Requests(accesses[..n])), last.addr, Isa.Len(last.width)) else []
  }

  /** The hierarchy's answer to its last finished request, for any list of aligned accesses it has accepted. */
  lemma FinishedAnswer(h: History, m: Memory, accesses: seq<Isa.Access>)
    requires SystemOk(h.system) && FollowsFlat(h, m) && h.accepted == Requests(accesses) && |accesses| > 0
    requires CPU in h.system.l1.done && forall i :: 0 <= i < |accesses| ==> Isa.Aligned(accesses[i])
    ensures h.system.l1.done[CPU] == LastAnswer(m, accesses)
    ensures FlatMemory(h.system) == AfterAll(m, h.accepted)
  {
    hide SystemOk, FollowsFlat, FlatMemory, AfterAll, Requests, Isa.BytesAt, Answer, Isa.Aligned;
    var n := |accesses| - 1;
    DoneMeansPerformed(h, m);
    RequestsPrefix(accesses, n);
    RequestMeansAccess(AfterAll(m, Requests(accesses[..n])), accesses[n]);
  }

  /** End to end: take any run of the pipeline and any run of the hierarchy below it, from the same memory, in which
      L1 has accepted exactly the requests the pipeline has sent, and the last one is done. Then the hierarchy
      presents the memory of the sequential machine after the instructions whose accesses have been made, and the last
      request, whether it hit at once or had to wait, was answered with the bytes the machine reads. */
  lemma PipelineOverHierarchy(code: Isa.Program, pc: Word, m: Memory, s: P.State, h: History)
    requires T.Reachable(code, pc, m, s) && SystemOk(h.system) && FollowsFlat(h, m)
    requires h.accepted == Requests(s.bus.accepted) && |h.accepted| > 0 && CPU in h.system.l1.done
    ensures var k := s.hpm.retired + Proof.Count(s.wb);
            && FlatMemory(h.system) == T.Machine(code, pc, m, if s.txn.TxnWaiting? then k + 1 else k).mem
            && h.system.l1.done[CPU] == LastAnswer(m, s.bus.accepted)
  {
    hide T.Reachable, SystemOk, FollowsFlat, Isa.Step, FlatMemory, AfterAll, Requests, T.Machine, LastAnswer, Isa.Aligned;
    var k := s.hpm.retired + Proof.Count(s.wb);
    T.AccessesInProgramOrder(code, pc, m, s);
    MemoryIsItsAccesses(code, pc, m, if s.txn.TxnWaiting? then k + 1 else k);
    FinishedAnswer(h, m, s.bus.accepted);
  }

  /** A store and then a load of the same bytes, as requests on a flat memory: the register gets the stored value cut
      down to the width and extended. */
  lemma StoreThenLoad(m: Memory, store: Isa.Access, load: Isa.Access)
    requires store.Store? && load.Load? && load.addr == store.addr && load.width == store.width && Isa.Aligned(store)
    ensures RequestFor(load).InSpace()
    ensures var bytes := Answer(Apply(m, RequestFor(store)), RequestFor(load));
            |bytes| == Isa.Len(load.width) && Uop.LoadedValue(load, bytes) == Isa.Extend(load.width, load.signed, store.value)
  {
    var n := Isa.Len(load.width);
    var bytes := ToLe(store.value, n);
    RequestMeansAccess(m, store);
    RequestMeansAccess(Isa.Perform(m, store), load);
    assert Isa.Perform(m, store)[store.addr..store.addr + n] == bytes;
    UopProof.LoadedValueMatchesIsa(load, bytes);
    LeRoundTrip(store.value, n);
    ExtendCutDown(load.width, load.signed, store.value);
  }

  /** Extension looks only at the bytes of the width. */
  lemma ExtendCutDown(width: Isa.Width, signed: bool, value: nat)
    ensures Isa.Extend(width, signed, value % Pow256(Isa.Len(width))) == Isa.Extend(width, signed, value)
  {
    PowerOfBytes(Isa.Len(width));
    var p := Pow256(Isa.Len(width));
    DivModUnique(value % p, p, 0, value % p);
  }

  lemma {:induction false} PowerOfBytes(n: nat)
    ensures Pow256(n) == Pow2(8 * n)
  {
    if n > 0 {
      PowerOfBytes(n - 1);
      CacheConfig.Pow2Sum(8, 8 * (n - 1));
      assert Pow2(8) == 256;
    }
  }

  lemma RequestsPrefix(accesses: seq<Isa.Access>, n: nat)
    requires n <= |accesses|
    ensures Requests(accesses)[..n] == Requests(accesses[..n])
  {}
}
