/** The hierarchy behaves as one flat memory: every level's invariant is kept by every event, in any interleaving. */
module HierarchyProof {
  import opened Words
  import opened CacheConfig
  import opened Replacement
  import opened CacheSet
  import opened MemoryPort
  import opened CacheView
  import opened Cache
  import opened CacheProof
  import opened CachePort
  import opened MainMemory
  import opened MainPort
  import opened Hierarchy

  lemma MayBecomeTransitive(p: Port, q: Port, r: Port)
    requires MayBecome(p, q) && MayBecome(q, r)
    ensures MayBecome(p, r)
  {
    hide Apply, Answer;
  }

  // ---------- The requests a cache emits ----------

  /** A request aligned for a cache with smaller blocks is aligned for one with bigger blocks. */
  lemma AlignedBelow(upper: Geometry, lower: Geometry, addr: Word, len: nat)
    requires Sliceable(upper) && Sliceable(lower) && upper.offsetBits <= lower.offsetBits
    requires AlignmentOk(addr, len, upper.blockSize)
    ensures AlignmentOk(addr, len, lower.blockSize)
  {
    if len != 1 && len != 2 && len != 4 {
      PowerOfTwoLog(len);
      Pow2Monotone(upper.offsetBits, lower.offsetBits);
      if Ilog2(len) > upper.offsetBits {
        StrictlyMonotone(upper.offsetBits, Ilog2(len));
        assert false;
      }
      PowersDivide(Ilog2(len), lower.offsetBits);
      AlignedFits(addr, len, lower.blockSize);
    }
  }

  lemma StrictlyMonotone(a: nat, b: nat)
    requires a < b
    ensures Pow2(a) < Pow2(b)
  {
    Pow2Monotone(a + 1, b);
  }

  /** Every request a cache sends below passes the alignment check of a lower cache with blocks at least as big. */
  lemma EmittedRequestAligned(c: State, p: Port, lower: Geometry, req: Request)
    requires Invariant(c, p) && LowerCall(c) == Register(req)
    requires Sliceable(lower) && c.g.offsetBits <= lower.offsetBits
    ensures AlignmentOk(req.addr, req.Len(), lower.blockSize)
  {
    FsmOfInvariant(c, p);
    match c.fsm {
      case WriteBack(l, way) =>
        var addr := c.backup.value.req.addr;
        SplitMeaning(c.g, addr);
        var s := SetAt(c, addr);
        VictimAligned(c, p, Index(c.g, addr), way);
        UpperBlockAligned(c.g, lower, req.addr);
      case Allocate(l, way) =>
        var addr := c.backup.value.req.addr;
        SplitThenJoin(c.g, addr);
        BlockAddrMeaning(c.g, Tag(c.g, addr), Index(c.g, addr));
        UpperBlockAligned(c.g, lower, req.addr);
      case ThroughCommit(l, caller) => AlignedBelow(c.g, lower, req.addr, req.Len());
      case WriteAround(l, caller) => AlignedBelow(c.g, lower, req.addr, req.Len());
    }
    hide Invariant, AlignmentOk, FsmOk, BlockAddr, Tag, Index, Pow2;
  }

  lemma VictimAligned(c: State, p: Port, index: nat, way: nat)
    requires Invariant(c, p) && index < c.g.sets && way < c.g.ways && c.sets[index].valid[way]
    ensures BlockAddr(c.g, c.sets[index].tags[way], index) % c.g.blockSize == 0
    ensures |c.sets[index].blocks[way]| == c.g.blockSize
  {
    hide BlockAddr, Coherent, FsmOk;
    assert SetOk(c.g, c.sets[index], index, Settled(c, p));
    BlockAddrMeaning(c.g, c.sets[index].tags[way], index);
  }

  /** What a cache waits for below after a tick. */
  lemma OutstandingAfter(c: State, p: Port, inp: Input)
    requires Invariant(c, p) && Legal(c, p, inp) && Tick(c, inp).Ok?
    ensures Outstanding(Tick(c, inp).state) ==
              match LowerCall(c)
              case NoCall => None
              case Register(req) => if inp.ok then Some(req) else None
              case Poll(req) => if inp.ok then None else Some(req)
  {
    FsmOfInvariant(c, p);
    hide Invariant, Tag, Index, Offset, BlockAddr, FsmOk, Evict, Promote, Predict, Enqueue, Presented, PutSet, SetAt, Insert;
    if c.fsm.Lookup? {
      LookupWaitsForNothing(c, c.fsm.job, inp.random);
      hide LookupTick;
    }
  }

  lemma LookupWaitsForNothing(c: State, job: Job, random: nat)
    requires Shapes(c) && LookupTick(c, job, random).Ok?
    ensures Outstanding(LookupTick(c, job, random).state).None?
  {
    hide Tag, Index, Offset, BlockAddr, TagCompare, Promote, Predict, Enqueue, Pow2;
  }

  // ---------- Movements below a cache ----------

  /** When the memory below performs something, or nothing happens, a waiting client sees the same of the cache. */
  lemma BelowMoves(c: State, p: Port, q: Port, client: nat, req: Request)
    requires Invariant(c, p) && MayBecome(p, q) && OthersOnlyLoad(c, client)
    ensures Invariant(c, q)
    ensures SlotFor(c, p, client, req) != Free ==> MayBecome(PortFor(c, p, client, req), PortFor(c, q, client, req))
  {
    FsmOfInvariant(c, p);
    if p.slot.Busy? {
      PerformIsPortStep(c, p, client, req);
      hide Invariant, PortFor, SlotFor;
    }
  }

  /** A cache not serving a storing client presents the same memory whatever happens below. */
  lemma BelowMovesUnseen(c: State, p: Port, q: Port, client: nat)
    requires Invariant(c, p) && MayBecome(p, q) && OthersOnlyLoad(c, client) && NotServing(c, client)
    ensures Invariant(c, q) && Presented(c, q) == Presented(c, p)
  {
    FsmOfInvariant(c, p);
    if p.slot.Busy? {
      PerformKeeps(c, p);
      hide Invariant, Presented;
    }
  }

  /** Likewise for its own ticks. */
  lemma TickUnseen(c: State, p: Port, inp: Input, client: nat)
    requires Invariant(c, p) && Legal(c, p, inp) && OthersOnlyLoad(c, client) && NotServing(c, client)
    requires Tick(c, inp).Ok?
    ensures var c' := Tick(c, inp).state;
            && Invariant(c', Below(c, p, inp)) && Presented(c', Below(c, p, inp)) == Presented(c, p)
            && NotServing(c', client) && OthersOnlyLoad(c', client)
  {
    FsmOfInvariant(c, p);
    TickKeeps(c, p, inp);
    TickFlow(c, p, inp);
    FsmOfInvariant(Tick(c, inp).state, Below(c, p, inp));
    hide Invariant, Presented, Tick, FoundAt, WriteBackOk, AllocateOk, Legal, Below;
  }

  /** A tick never starts serving another client. */
  lemma TickServes(c: State, p: Port, inp: Input)
    requires Invariant(c, p) && Legal(c, p, inp) && Tick(c, inp).Ok?
    ensures var next := Current(Tick(c, inp).state);
            next.None? || next == Current(c) || next.value.owner.Synthetic?
  {
    FsmOfInvariant(c, p);
    TickKeeps(c, p, inp);
    TickFlow(c, p, inp);
    hide Invariant, Presented, Tick, FoundAt, WriteBackOk, AllocateOk, Legal, Below, TickEffect;
  }

  // ---------- Each event keeps the system ----------

  /** What an event may do to the processor: nothing, or its outstanding request performed on the flat memory; and
      nothing at all to the flat memory when it has none being served. */
  predicate FlatStep(s: System, t: System, req: Request)
    requires MainOk(s.main) && Shapes(s.l1) && Shapes(s.l2)
    requires MainOk(t.main) && Shapes(t.l1) && Shapes(t.l2)
  {
    && (SlotFor(s.l1, BelowL1(s), CPU, req) != Free ==> MayBecome(Flat(s, req), Flat(t, req)))
    && (NotServing(s.l1, CPU) ==> FlatMemory(t) == FlatMemory(s) && NotServing(t.l1, CPU))
  }

  lemma L1Facts(s: System)
    requires SystemOk(s)
    ensures OthersOnlyLoad(s.l1, CPU)
    ensures LowerCall(s.l1).Register? ==> BelowL1(s).slot.Free?
    ensures OthersOnlyLoad(s.l2, L1D)
  {
    hide Invariant, Presented;
  }

  /** What L1 sees moves as a port when L2 ticks or main memory performs. */
  lemma L1Follows(s: System, t: System, req: Request)
    requires SystemOk(s) && MainOk(t.main) && Shapes(t.l2) && t.l1 == s.l1
    requires MayBecome(BelowL1(s), BelowL1(t))
    requires Invariant(t.l2, BelowL2(t)) && OthersOnlyLoad(t.l2, L1D)
    requires t.l2.g == s.l2.g
    requires Outstanding(s.l1).None? ==> NotServing(t.l2, L1D)
    requires Outstanding(t.l2).None? ==> t.main.Pending().None?
    ensures SystemOk(t) && FlatStep(s, t, req)
  {
    L1Facts(s);
    BelowMoves(s.l1, BelowL1(s), BelowL1(t), CPU, req);
    if NotServing(s.l1, CPU) {
      BelowMovesUnseen(s.l1, BelowL1(s), BelowL1(t), CPU);
    }
    hide Invariant, BelowL1, BelowL2, OthersOnlyLoad, NotServing, Presented;
  }

  lemma MainMoves(s: System, main: Main)
    requires SystemOk(s) && MainTick(s.main) == Fine(main)
    ensures var t := s.(main := main);
            && MainOk(main) && MayBecome(BelowL2(s), BelowL2(t))
            && (Outstanding(t.l2).None? ==> main.Pending().None?)
  {
    hide MainTick, Invariant, Presented, MayBecome;
    if Outstanding(s.l2).Some? {
      MainWaits(s);
      MainTickIsPortStep(s.main, Outstanding(s.l2).value);
    } else {
      MainTickAtRest(s.main);
      SamePort(BelowL2(s));
    }
  }

  lemma MainEvent(s: System, main: Main, req: Request)
    requires SystemOk(s) && MainTick(s.main) == Fine(main)
    ensures var t := s.(main := main);
            MainOk(t.main) && SystemOk(t) && FlatStep(s, t, req)
  {
    MainMoves(s, main);
    hide BelowL2, MainTick, Invariant, MayBecome, FlatStep, SystemOk;
    L2Follows(s, s.(main := main), req);
  }

  lemma MainWaits(s: System)
    requires SystemOk(s) && Outstanding(s.l2).Some?
    ensures BelowL2(s).slot != Free
  {
    FsmOfInvariant(s.l2, BelowL2(s));
    hide Invariant, AllocateOk, WriteBackOk, StoreBelowOk, MainAsPort;
    SlotOfWaiting(s.l2, BelowL2(s));
  }

  lemma SlotOfWaiting(c: State, p: Port)
    requires Shapes(c) && FsmOk(c, p) && Outstanding(c).Some?
    ensures p.slot != Free
  {
    hide Shapes;
  }

  /** What L2 sees moved as a port: L1 and the processor follow. */
  lemma L2Follows(s: System, t: System, req: Request)
    requires SystemOk(s) && MainOk(t.main) && t.l1 == s.l1 && t.l2 == s.l2
    requires MayBecome(BelowL2(s), BelowL2(t))
    requires Outstanding(t.l2).None? ==> t.main.Pending().None?
    ensures SystemOk(t) && FlatStep(s, t, req)
  {
    L1Facts(s);
    hide MainAsPort;
    match Outstanding(s.l1) {
      case None => BelowMovesUnseen(s.l2, BelowL2(s), BelowL2(t), L1D);
      case Some(r) =>
        L1Waits(s);
        BelowMoves(s.l2, BelowL2(s), BelowL2(t), L1D, r);
    }
    hide Invariant, BelowL2, OthersOnlyLoad, NotServing, MayBecome, FlatStep;
    assert MayBecome(BelowL1(s), BelowL1(t)) by { SamePort(BelowL1(s)); }
    L1Follows(s, t, req);
  }

  lemma SamePort(p: Port)
    ensures MayBecome(p, p)
  {}

  lemma L1Waits(s: System)
    requires SystemOk(s) && Outstanding(s.l1).Some?
    ensures BelowL1(s).slot != Free
  {
    FsmOfInvariant(s.l1, BelowL1(s));
    hide Invariant, AllocateOk, WriteBackOk, StoreBelowOk, PortFor;
    SlotOfWaiting(s.l1, BelowL1(s));
  }

  lemma LookupGeometry(c: State, job: Job, random: nat)
    requires Shapes(c) && LookupTick(c, job, random).Ok?
    ensures LookupTick(c, job, random).state.g == c.g
  {
    hide Tag, Index, Offset, BlockAddr, TagCompare, Promote, Predict, Enqueue, Pow2;
  }

  lemma TickGeometry(c: State, inp: Input)
    requires Shapes(c) && Tick(c, inp).Ok?
    ensures Tick(c, inp).state.g == c.g
  {
    hide Tag, Index, Offset, BlockAddr, LookupTick, Insert, Pow2;
    if c.fsm.Lookup? {
      LookupGeometry(c, c.fsm.job, inp.random);
    }
  }

  /** The answer L2 gets from main memory in its tick. */
  function L2Input(s: System, random: nat): Input {
    match LowerCall(s.l2)
    case NoCall => Input(false, [], random)
    case Register(req) =>
      var r := MainRegister(s.main, req);
      Input(r.Fine? && r.value.0, [], random)
    case Poll(_) =>
      if s.main.Finished().Some? then Input(true, s.main.Finished().value, random) else Input(false, [], random)
  }

  /** That answer is legal, and leaves the port as the port's client expects. */
  lemma L2InputLegal(s: System, random: nat)
    requires SystemOk(s) && StepL2(s, random).Next?
    ensures var inp, t := L2Input(s, random), StepL2(s, random).system;
            && Tick(s.l2, inp).Ok? && t.l2 == Tick(s.l2, inp).state && t.l1 == s.l1
            && Legal(s.l2, BelowL2(s), inp)
            && MainOk(t.main) && BelowL2(t) == Below(s.l2, BelowL2(s), inp)
            && (Outstanding(t.l2).None? ==> t.main.Pending().None?)
  {
    var inp, t := L2Input(s, random), StepL2(s, random).system;
    hide Tick, Invariant, MainRegister, Presented, Padded;
    FsmOfInvariant(s.l2, BelowL2(s));
    match LowerCall(s.l2) {
      case NoCall =>
      case Register(req) => MainRegisterIsPortStep(s.main, req);
      case Poll(req) => MainWaits(s);
    }
    hide FsmOk;
    OutstandingAfter(s.l2, BelowL2(s), inp);
  }

  lemma L2Event(s: System, random: nat, req: Request)
    requires SystemOk(s) && StepL2(s, random).Next?
    ensures var t := StepL2(s, random).system;
            MainOk(t.main) && Shapes(t.l1) && Shapes(t.l2) && SystemOk(t) && FlatStep(s, t, req)
  {
    L2InputLegal(s, random);
    var inp, t := L2Input(s, random), StepL2(s, random).system;
    var p := BelowL2(s);
    L1Facts(s);
    TickServes(s.l2, p, inp);
    TickGeometry(s.l2, inp);
    hide StepL2, Tick, BelowL2, Below, L2Input, Legal;
    match Outstanding(s.l1) {
      case None => TickUnseen(s.l2, p, inp, L1D);
      case Some(r) =>
        L1Waits(s);
        TickIsPortStep(s.l2, p, inp, L1D, r);
    }
    FsmOfInvariant(t.l2, BelowL2(t));
    hide Invariant, MayBecome, FlatStep, Presented, SlotFor;
    assert MayBecome(BelowL1(s), BelowL1(t)) by { SamePort(BelowL1(s)); }
    L1Follows(s, t, req);
  }

  // ---------- Registrations ----------

  lemma RegisterFacts(c: State, client: nat, req: Request, random: nat)
    requires Shapes(c) && TryRegister(c, client, req, random).1.Ok?
    ensures AlignmentOk(req.addr, req.Len(), c.g.blockSize)
    ensures var (accepted, r) := TryRegister(c, client, req, random);
            && r.state.g == c.g
            && (accepted ==> c.fsm.Idle? && Outstanding(r.state).None?)
  {
    hide LookupTick, AlignmentOk;
    if AlignmentOk(req.addr, req.Len(), c.g.blockSize) && c.fsm.Idle? && c.pending.None? {
      RegisterIsLookup(c, client, req, random);
      var job := Job(Client(client), req);
      LookupGeometry(c.(fsm := Lookup(job), done := c.done - {client}), job, random);
      LookupWaitsForNothing(c.(fsm := Lookup(job), done := c.done - {client}), job, random);
    }
  }

  /** After a registration the cache serves that client or nobody new. */
  lemma RegisterServes(c: State, p: Port, client: nat, req: Request, random: nat)
    requires Invariant(c, p) && AlignmentOk(req.addr, req.Len(), c.g.blockSize) && c.g.blockSize >= 4
    ensures var (accepted, r) := TryRegister(c, client, req, random);
            && r.Ok?
            && (accepted ==> Current(r.state).None? || Current(r.state) == Some(Job(Client(client), req)))
  {
    FsmOfInvariant(c, p);
    hide Invariant, AlignmentOk, LookupTick;
    if c.fsm.Idle? {
      RegisterIsLookup(c, client, req, random);
      RegisteredOk(c, p, client, req);
      LookupStep(Registered(c, client, req), p, client, req, random);
    }
  }

  /** The instruction cache loading through L2 is invisible to the data side. */
  lemma FetchEvent(s: System, addr: Word, len: nat, random: nat, req: Request)
    requires SystemOk(s) && Step(s, FetchRegister(addr, len, random)).Next?
    ensures var t := Step(s, FetchRegister(addr, len, random)).system;
            MainOk(t.main) && Shapes(t.l1) && Shapes(t.l2) && SystemOk(t) && FlatStep(s, t, req)
  {
    var load := Load(addr, len);
    var t := Step(s, FetchRegister(addr, len, random)).system;
    var p := BelowL2(s);
    L1Facts(s);
    RegisterFacts(s.l2, L1I, load, random);
    RegisterServes(s.l2, p, L1I, load, random);
    RegisterIsPortStep(s.l2, p, L1I, load, random);
    FsmOfInvariant(s.l2, p);
    hide TryRegister, AlignmentOk, MainAsPort;
    assert Outstanding(t.l2) == Outstanding(s.l2) by { hide FsmOk; }
    FsmOfInvariant(t.l2, p);
    match Outstanding(s.l1) {
      case None => assert Presented(t.l2, p) == Presented(s.l2, p);
      case Some(r) =>
        L1Waits(s);
        OtherRegisterIsInvisible(s.l2, p, L1I, load, random, L1D, r);
    }
    hide Invariant, MayBecome, FlatStep, Presented, SlotFor;
    assert MayBecome(BelowL1(s), BelowL1(t)) by { SamePort(BelowL1(s)); }
    L1Follows(s, t, req);
  }

  /** The processor's request is accepted exactly when L1 is idle, and from then on is outstanding on the flat
      memory the processor saw before. */
  lemma CpuEvent(s: System, r: Request, random: nat)
    requires SystemOk(s) && Step(s, CpuRegister(r, random)).Next?
    ensures var t := Step(s, CpuRegister(r, random)).system;
            && MainOk(t.main) && Shapes(t.l1) && Shapes(t.l2) && SystemOk(t)
            && (s.l1.fsm.Idle? ==> MayBecome(Port(FlatMemory(s), Busy(r)), Flat(t, r)) && Flat(t, r).slot != Free)
            && (!s.l1.fsm.Idle? ==> t == s)
  {
    var t := Step(s, CpuRegister(r, random)).system;
    var p := BelowL1(s);
    RegisterFacts(s.l1, CPU, r, random);
    RegisterServes(s.l1, p, CPU, r, random);
    RegisterIsPortStep(s.l1, p, CPU, r, random);
    FsmOfInvariant(s.l1, p);
    hide TryRegister, AlignmentOk, MainAsPort, MayBecome, SlotFor, Presented;
    assert Outstanding(t.l1) == Outstanding(s.l1) by { hide FsmOk; }
    FsmOfInvariant(t.l1, p);
    hide Invariant, FsmOk;
  }

  // ---------- L1 ticks ----------

  /** Once L1 has seen its request done, L2 serves it no more. */
  lemma AfterPoll(s: System)
    requires SystemOk(s) && L1D in s.l2.done
    ensures NotServing(s.l2, L1D)
  {
    FsmOfInvariant(s.l2, BelowL2(s));
    hide Invariant, FsmOk, Presented;
  }

  /** What L1 sees below it after a tick of its own that leaves L2 alone. */
  lemma L1BelowAfter(s: System, inp: Input)
    requires SystemOk(s) && Legal(s.l1, BelowL1(s), inp) && Tick(s.l1, inp).Ok?
    requires inp.ok ==> !LowerCall(s.l1).Register? && L1D in s.l2.done
    ensures BelowL1(s.(l1 := Tick(s.l1, inp).state)) == Below(s.l1, BelowL1(s), inp)
    ensures Outstanding(Tick(s.l1, inp).state).None? ==> NotServing(s.l2, L1D)
  {
    OutstandingAfter(s.l1, BelowL1(s), inp);
    if inp.ok {
      AfterPoll(s);
    }
    hide Tick, Invariant, Presented, SlotFor, NotServing;
  }

  /** L1 ticked without touching L2. */
  lemma L1Alone(s: System, inp: Input, req: Request)
    requires SystemOk(s) && Legal(s.l1, BelowL1(s), inp) && Tick(s.l1, inp).Ok?
    requires inp.ok ==> !LowerCall(s.l1).Register? && L1D in s.l2.done
    ensures var t := s.(l1 := Tick(s.l1, inp).state);
            MainOk(t.main) && Shapes(t.l1) && Shapes(t.l2) && SystemOk(t) && FlatStep(s, t, req)
  {
    var p := BelowL1(s);
    var t := s.(l1 := Tick(s.l1, inp).state);
    L1Facts(s);
    L1BelowAfter(s, inp);
    hide Tick, BelowL1, Below, BelowL2, Legal, Presented, SlotFor, Invariant;
    SamePort(BelowL1(t));
    TickThenBelow(s.l1, p, inp, BelowL1(t), CPU, req);
  }

  /** L1's request is accepted by L2 in the middle of L1's tick. */
  lemma L1RegistersAtL2(s: System, request: Request, random: nat, randomBelow: nat, req: Request)
    requires SystemOk(s) && LowerCall(s.l1) == Register(request)
    requires L1AsksL2(s, request, random, randomBelow).Next?
    ensures var t := L1AsksL2(s, request, random, randomBelow).system;
            MainOk(t.main) && Shapes(t.l1) && Shapes(t.l2) && SystemOk(t) && FlatStep(s, t, req)
  {
    var t := L1AsksL2(s, request, random, randomBelow).system;
    L1Facts(s);
    EmittedRequestAligned(s.l1, BelowL1(s), s.l2.g, request);
    RegisterFacts(s.l2, L1D, request, randomBelow);
    RegisterServes(s.l2, BelowL2(s), L1D, request, randomBelow);
    RegisterIsPortStep(s.l2, BelowL2(s), L1D, request, randomBelow);
    var (accepted, r) := TryRegister(s.l2, L1D, request, randomBelow);
    if !accepted {
      L1Alone(s, Input(false, [], random), req);
    } else {
      L1Accepted(s, request, random, r.state, req);
    }
    hide TryRegister, Tick, SystemOk, FlatStep, AlignmentOk;
  }

  /** A tick of a cache and then a movement below it are together one step for its client. */
  lemma TickThenBelow(c: State, p: Port, inp: Input, q: Port, client: nat, req: Request)
    requires Invariant(c, p) && Legal(c, p, inp) && Tick(c, inp).Ok? && ServesOnly(c, client)
    requires MayBecome(Below(c, p, inp), q)
    ensures var c' := Tick(c, inp).state;
            && Invariant(c', q) && ServesOnly(c', client) && c'.g == c.g
            && (SlotFor(c, p, client, req) != Free ==>
                  MayBecome(PortFor(c, p, client, req), PortFor(c', q, client, req)))
            && (NotServing(c, client) ==> Presented(c', q) == Presented(c, p) && NotServing(c', client))
  {
    var c', r := Tick(c, inp).state, Below(c, p, inp);
    TickServes(c, p, inp);
    TickGeometry(c, inp);
    TickKeeps(c, p, inp);
    if SlotFor(c, p, client, req) != Free {
      TickIsPortStep(c, p, inp, client, req);
    }
    if NotServing(c, client) {
      TickUnseen(c, p, inp, client);
    }
    hide Tick, TickEffect, Presented, SlotFor, Invariant, FoundAt, Below, MayBecome, FsmOk, Legal;
    FsmOfInvariant(c', r);
    BelowMoves(c', r, q, client, req);
    if NotServing(c, client) {
      BelowMovesUnseen(c', r, q, client);
    }
    if SlotFor(c, p, client, req) != Free {
      MayBecomeTransitive(PortFor(c, p, client, req), PortFor(c', r, client, req), PortFor(c', q, client, req));
    }
  }

  lemma L1Accepted(s: System, request: Request, random: nat, l2: State, req: Request)
    requires SystemOk(s) && LowerCall(s.l1) == Register(request)
    requires Invariant(l2, BelowL2(s)) && l2.g == s.l2.g && Outstanding(s.l2).None? && Outstanding(l2).None?
    requires SlotFor(l2, BelowL2(s), L1D, request) != Free
    requires MayBecome(Port(Presented(s.l2, BelowL2(s)), Busy(request)), PortFor(l2, BelowL2(s), L1D, request))
    requires Current(l2).None? || Current(l2) == Some(Job(Client(L1D), request))
    requires Tick(s.l1, Input(true, [], random)).Ok?
    ensures var t := System(Tick(s.l1, Input(true, [], random)).state, l2, s.main);
            MainOk(t.main) && Shapes(t.l1) && Shapes(t.l2) && SystemOk(t) && FlatStep(s, t, req)
  {
    var inp := Input(true, [], random);
    var p, t := BelowL1(s), System(Tick(s.l1, inp).state, l2, s.main);
    L1Facts(s);
    OutstandingAfter(s.l1, p, inp);
    assert Below(s.l1, p, inp) == Port(Presented(s.l2, BelowL2(s)), Busy(request));
    assert BelowL2(t) == BelowL2(s);
    assert BelowL1(t) == PortFor(l2, BelowL2(s), L1D, request);
    hide Tick, Presented, SlotFor, Invariant, Below, BelowL2, MayBecome, BelowL1;
    TickThenBelow(s.l1, p, inp, BelowL1(t), CPU, req);
  }

  lemma L1Event(s: System, random: nat, randomBelow: nat, req: Request)
    requires SystemOk(s) && StepL1(s, random, randomBelow).Next?
    ensures var t := StepL1(s, random, randomBelow).system;
            MainOk(t.main) && Shapes(t.l1) && Shapes(t.l2) && SystemOk(t) && FlatStep(s, t, req)
  {
    L1Facts(s);
    match LowerCall(s.l1) {
      case NoCall => L1Alone(s, Input(false, [], random), req);
      case Register(r) => L1RegistersAtL2(s, r, random, randomBelow, req);
      case Poll(r) =>
        var inp := if L1D in s.l2.done then Input(true, s.l2.done[L1D], random) else Input(false, [], random);
        PollLegal(s, inp);
        L1Alone(s, inp, req);
    }
    hide Tick, L1AsksL2, SystemOk, FlatStep, Legal;
  }

  lemma PollLegal(s: System, inp: Input)
    requires SystemOk(s) && LowerCall(s.l1).Poll?
    requires inp.ok ==> L1D in s.l2.done && inp.data == s.l2.done[L1D]
    ensures Legal(s.l1, BelowL1(s), inp)
  {
    hide Invariant, Presented;
  }

  /** Composition: any event other than a registration by the processor is, for the processor, nothing or its
      outstanding request being performed on the flat memory, whatever the instruction cache does in L2. */
  lemma EventIsPortStep(s: System, e: Event, req: Request)
    requires SystemOk(s) && !e.CpuRegister? && Step(s, e).Next?
    ensures var t := Step(s, e).system;
            MainOk(t.main) && Shapes(t.l1) && Shapes(t.l2) && SystemOk(t) && FlatStep(s, t, req)
  {
    match e {
      case FetchRegister(addr, len, random) => FetchEvent(s, addr, len, random, req);
      case TickL1(random, randomBelow) => L1Event(s, random, randomBelow, req);
      case TickL2(random) => L2Event(s, random, req);
      case TickMain => MainEvent(s, Step(s, e).system.main, req);
    }
    hide TryRegister, StepL1, StepL2, MainTick, SystemOk, FlatStep;
  }

  // ---------- Every run ----------

  ghost predicate IsNew(c: State) {
    exists kind, policy, prefetcher, penalty ::
      && Supported(policy) && Sliceable(c.g) && c.g.ways >= 1
      && c == NewCache(c.g, kind, policy, prefetcher, penalty)
  }

  /** A fresh hierarchy, of any supported configuration, over a main memory at rest. */
  ghost predicate Fresh(s: System) {
    && IsNew(s.l1) && IsNew(s.l2)
    && MainOk(s.main) && s.main.Pending().None?
    && s.l1.g.offsetBits <= s.l2.g.offsetBits && s.l1.g.blockSize >= 4 && s.l2.g.blockSize >= 4
  }

  lemma NewIsFlat(c: State, m: Memory)
    requires IsNew(c)
    ensures Invariant(c, Port(m, Free)) && Presented(c, Port(m, Free)) == m
    ensures c.fsm.Idle? && c.pending.None? && c.done == map[]
  {
    var kind, policy, prefetcher, penalty :|
      && Supported(policy) && Sliceable(c.g) && c.g.ways >= 1
      && c == NewCache(c.g, kind, policy, prefetcher, penalty);
    NewCachePresents(c.g, kind, policy, prefetcher, penalty, m);
    hide Invariant, Presented;
  }

  lemma FreshIsFlat(s: System)
    requires Fresh(s)
    ensures SystemOk(s) && FlatMemory(s) == Padded(s.main.Data())
    ensures NotServing(s.l1, CPU)
  {
    NewIsFlat(s.l1, Padded(s.main.Data()));
    NewIsFlat(s.l2, Padded(s.main.Data()));
    hide IsNew;
    FsmOfInvariant(s.l1, Port(Padded(s.main.Data()), Free));
    FsmOfInvariant(s.l2, Port(Padded(s.main.Data()), Free));
    hide Invariant, Presented, Padded;
  }

  /** A run in which the processor registers a request only when its previous one is done. `accepted` lists the
      requests L1 accepted, in order. */
  datatype History = History(system: System, accepted: seq<Request>)

  datatype Ran = Running(h: History) | Stopped

  /** The processor waits for its request: it registers only before the first one or after one is done. */
  predicate MayRegister(h: History) {
    |h.accepted| == 0 || CPU in h.system.l1.done
  }

  function RunStep(h: History, e: Event): Ran {
    if !Shapes(h.system.l1) || !Shapes(h.system.l2) || !MainOk(h.system.main) then Stopped
    else if e.CpuRegister? && !MayRegister(h) then Running(h)
    else
      match Step(h.system, e)
      case Aborted => Stopped
      case Next(t) =>
        Running(History(t, if e.CpuRegister? && h.system.l1.fsm.Idle? then h.accepted + [e.req] else h.accepted))
  }

  /** The flat memory after a list of requests, performed one after another. */
  function AfterAll(m: Memory, reqs: seq<Request>): Memory {
    if |reqs| == 0 then m else Apply(AfterAll(m, reqs[..|reqs| - 1]), reqs[|reqs| - 1])
  }

  /** The hierarchy is at the flat memory that has performed every accepted request but perhaps the last, and a
      finished last request carries that memory's answer. */
  predicate FollowsFlat(h: History, m: Memory)
    requires SystemOk(h.system)
  {
    var n := |h.accepted|;
    if n == 0 then FlatMemory(h.system) == m && NotServing(h.system.l1, CPU)
    else
      var last := h.accepted[n - 1];
      && Flat(h.system, last).slot != Free
      && MayBecome(Port(AfterAll(m, h.accepted[..n - 1]), Busy(last)), Flat(h.system, last))
  }

  /** The processor sees its last request done only with every accepted request performed. */
  lemma DoneMeansPerformed(h: History, m: Memory)
    requires SystemOk(h.system) && FollowsFlat(h, m) && |h.accepted| > 0 && CPU in h.system.l1.done
    ensures var n := |h.accepted|;
            var last := h.accepted[n - 1];
            && last.InSpace()
            && FlatMemory(h.system) == AfterAll(m, h.accepted)
            && h.system.l1.done[CPU] == Answer(AfterAll(m, h.accepted[..n - 1]), last)
  {
    hide Presented, Apply, Answer, Invariant;
  }

  lemma OkMeansShapes(s: System)
    requires SystemOk(s)
    ensures Shapes(s.l1) && Shapes(s.l2) && MainOk(s.main)
  {}

  lemma OtherEventFollows(h: History, e: Event, m: Memory)
    requires SystemOk(h.system) && FollowsFlat(h, m) && !e.CpuRegister? && Step(h.system, e).Next?
    ensures var t := Step(h.system, e).system;
            SystemOk(t) && FollowsFlat(History(t, h.accepted), m)
  {
    hide Step, SystemOk, Presented, AfterAll, BelowL1, SlotFor, NotServing, Shapes, MainOk;
    var s, n := h.system, |h.accepted|;
    OkMeansShapes(s);
    var t := Step(s, e).system;
    var last := if n > 0 then h.accepted[n - 1] else Load(0, 0);
    EventIsPortStep(s, e, last);
    hide MayBecome;
    if n > 0 {
      MayBecomeTransitive(Port(AfterAll(m, h.accepted[..n - 1]), Busy(last)), Flat(s, last), Flat(t, last));
    }
  }

  lemma AcceptedFollows(h: History, req: Request, random: nat, m: Memory)
    requires SystemOk(h.system) && FollowsFlat(h, m) && MayRegister(h) && h.system.l1.fsm.Idle?
    requires Step(h.system, CpuRegister(req, random)).Next?
    ensures var t := Step(h.system, CpuRegister(req, random)).system;
            SystemOk(t) && FollowsFlat(History(t, h.accepted + [req]), m)
  {
    CpuEvent(h.system, req, random);
    if |h.accepted| > 0 {
      DoneMeansPerformed(h, m);
    }
    assert (h.accepted + [req])[..|h.accepted|] == h.accepted;
    hide Step, SystemOk, Presented, MayBecome;
  }

  /** Every step of a run keeps the hierarchy at the flat memory. */
  lemma RunStepFollows(h: History, e: Event, m: Memory)
    requires SystemOk(h.system) && FollowsFlat(h, m) && RunStep(h, e).Running?
    ensures var h' := RunStep(h, e).h;
            SystemOk(h'.system) && FollowsFlat(h', m)
  {
    hide Step, SystemOk, FollowsFlat;
    if !e.CpuRegister? {
      OtherEventFollows(h, e, m);
    } else if MayRegister(h) {
      if h.system.l1.fsm.Idle? {
        AcceptedFollows(h, e.req, e.random, m);
      } else {
        CpuEvent(h.system, e.req, e.random);
      }
    }
  }

  function Run(h: History, events: seq<Event>): Ran {
    if |events| == 0 then Running(h)
    else
      match Run(h, events[..|events| - 1])
      case Stopped => Stopped
      case Running(h') => RunStep(h', events[|events| - 1])
  }

  lemma {:induction false} RunFollows(h: History, events: seq<Event>, m: Memory)
    requires SystemOk(h.system) && FollowsFlat(h, m) && Run(h, events).Running?
    ensures var h' := Run(h, events).h;
            SystemOk(h'.system) && FollowsFlat(h', m)
  {
    hide SystemOk, FollowsFlat, RunStep;
    if |events| > 0 {
      var before := events[..|events| - 1];
      RunFollows(h, before, m);
      RunStepFollows(Run(h, before).h, events[|events| - 1], m);
    }
  }

  /** The hierarchy is one flat memory: in any run of a fresh hierarchy, of any supported configuration, with any
      interleaving, latencies and instruction-cache traffic, whenever the processor's last request is done, it
      carries the answer of a plain byte array that performed all accepted requests in order, and the hierarchy
      presents the contents of that array. */
  lemma HierarchyIsFlat(s: System, events: seq<Event>)
    requires Fresh(s) && Run(History(s, []), events).Running?
    ensures var h, m := Run(History(s, []), events).h, Padded(s.main.Data());
            var n := |h.accepted|;
            SystemOk(h.system)
            && (n > 0 && CPU in h.system.l1.done ==>
                  var last := h.accepted[n - 1];
                  && last.InSpace()
                  && h.system.l1.done[CPU] == Answer(AfterAll(m, h.accepted[..n - 1]), last)
                  && FlatMemory(h.system) == AfterAll(m, h.accepted))
  {
    var m := Padded(s.main.Data());
    FreshIsFlat(s);
    assert FollowsFlat(History(s, []), m);
    RunFollows(History(s, []), events, m);
    hide SystemOk, FollowsFlat, Run, Fresh;
    var h := Run(History(s, []), events).h;
    if |h.accepted| > 0 && CPU in h.system.l1.done {
      DoneMeansPerformed(h, m);
    }
  }
}
