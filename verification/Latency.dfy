/** Bounded service with exact latencies: a cache over SimpleMem, the cache ticked first in every cycle. A request
    causes at most one refill, and its time follows from the state in which its registration leaves the cache. */
module Latency {
  import opened Words
  import opened CacheConfig
  import opened CacheSet
  import opened Replacement
  import opened MemoryPort
  import opened Cache
  import opened CacheProof
  import opened CachePort
  import opened MainMemory
  import opened MainPort

  /** One cycle: the cache ticks, calling the memory, and then the memory ticks. */
  function Cycle(c: State, m: SimpleMem): Option<(State, SimpleMem)> {
    if !Shapes(c) then None
    else
      match LowerCall(c)
      case NoCall => Both(Tick(c, Input(false, [], 0)), m)
      case Register(req) =>
        (match SimpleRegister(m, req)
         case Failed(_) => None
         case Fine((ok, m')) => Both(Tick(c, Input(ok, [], 0)), m'))
      case Poll(_) =>
        if m.finished.Some? then Both(Tick(c, Input(true, m.finished.value, 0)), m)
        else Both(Tick(c, Input(false, [], 0)), m)
  }

  function Both(o: Outcome, m: SimpleMem): Option<(State, SimpleMem)> {
    match o
    case Abort(_) => None
    case Ok(c) =>
      match SimpleTick(m)
      case Failed(_) => None
      case Fine(m') => Some((c, m'))
  }

  function Cycles(c: State, m: SimpleMem, n: nat): Option<(State, SimpleMem)> {
    if n == 0 then Some((c, m))
    else
      match Cycles(c, m, n - 1)
      case None => None
      case Some((c', m')) => Cycle(c', m')
  }

  lemma {:induction false} CyclesCompose(c: State, m: SimpleMem, a: nat, b: nat)
    requires Cycles(c, m, a).Some?
    ensures Cycles(c, m, a + b) == Cycles(Cycles(c, m, a).value.0, Cycles(c, m, a).value.1, b)
  {
    hide Cycle;
    if b > 0 {
      CyclesCompose(c, m, a, b - 1);
    }
  }

  // ---------- One exchange with the memory ----------

  /** The cache after its request has been accepted below. */
  function Accepted(c: State): State
    requires LowerCall(c).Register?
  {
    var lower := Waiting(LowerCall(c).req);
    match c.fsm
    case WriteBack(_, way) => c.(fsm := WriteBack(lower, way))
    case Allocate(_, way) => c.(fsm := Allocate(lower, way))
    case ThroughCommit(_, caller) => c.(fsm := ThroughCommit(lower, caller))
    case WriteAround(_, caller) => c.(fsm := WriteAround(lower, caller))
  }

  lemma SendTick(c: State)
    requires Shapes(c) && LowerCall(c).Register?
    ensures Tick(c, Input(true, [], 0)) == Ok(Accepted(c))
    ensures Shapes(Accepted(c)) && LowerCall(Accepted(c)) == Poll(LowerCall(c).req)
    ensures Accepted(c).done == c.done && Current(Accepted(c)) == Current(c)
  {
    hide LookupTick, SetAt;
  }

  lemma PollTick(c: State)
    requires Shapes(c) && LowerCall(c).Poll?
    ensures Tick(c, Input(false, [], 0)) == Ok(c)
  {
    hide LookupTick, SetAt;
  }

  lemma {:induction false} Waits(c: State, m: SimpleMem, k: nat)
    requires Shapes(c) && LowerCall(c).Poll? && m.pending.Some? && m.finished.None? && k <= m.countdown
    ensures Cycles(c, m, k) == Some((c, m.(countdown := m.countdown - k)))
  {
    hide Shapes, Tick;
    if k > 0 {
      Waits(c, m, k - 1);
      PollTick(c);
    }
  }

  /** The memory once the request is performed. */
  function Served(m: SimpleMem, req: Request): SimpleMem
    requires req.addr + req.Len() <= |m.data|
  {
    m.(pending := None, countdown := 0, data := Write(m.data, req), finished := Some(Read(m.data, req)),
       loads := if req.Load? then m.loads + 1 else m.loads, stores := if req.Store? then m.stores + 1 else m.stores)
  }

  /** Acceptance takes one cycle, the memory fifteen more, and for these sixteen nothing else happens. */
  lemma Exchange(c: State, m: SimpleMem)
    requires Shapes(c) && LowerCall(c).Register? && m.pending.None?
    requires var req := LowerCall(c).req; req.addr < MEM_SIZE && req.addr + req.Len() <= |m.data|
    ensures forall k :: 1 <= k <= 16 ==> Cycles(c, m, k).Some? && Cycles(c, m, k).value.0 == Accepted(c)
    ensures Cycles(c, m, 16) == Some((Accepted(c), Served(m, LowerCall(c).req)))
  {
    hide Shapes, Tick, Current, Write, Read;
    var req := LowerCall(c).req;
    SendTick(c);
    var a, m1 := Accepted(c), SimpleRegister(m, req).value.1;
    assert Cycles(c, m, 1) == Some((a, m1.(countdown := 14))) by { assert Cycles(c, m, 0) == Some((c, m)); }
    forall k | 1 <= k <= 15
      ensures Cycles(c, m, k) == Some((a, m1.(countdown := 15 - k)))
    {
      CyclesCompose(c, m, 1, k - 1);
      Waits(a, m1.(countdown := 14), k - 1);
    }
    PollTick(a);
    assert Cycles(c, m, 15) == Some((a, m1.(countdown := 0)));
    assert Cycles(c, m, 16) == Cycle(a, m1.(countdown := 0));
  }

  // ---------- The stages of a request ----------

  /** The cache keeps its invariant over the memory at rest. */
  predicate AtRest(c: State, m: SimpleMem) {
    m.pending.None? && |m.data| <= TWO_32 && Invariant(c, Port(Padded(m.data), Free))
  }

  predicate Inside(m: SimpleMem, req: Request) {
    req.addr < MEM_SIZE && req.addr + req.Len() <= |m.data|
  }

  /** The block of an address lies in the memory. */
  predicate BlockInside(g: Geometry, m: SimpleMem, addr: Word)
    requires Sliceable(g)
  {
    Inside(m, Load(BlockBase(g, addr), Pow2(g.offsetBits)))
  }

  /** What the cycle after an exchange leaves. */
  function Finished(c: State, m: SimpleMem): Outcome
    requires Shapes(c) && LowerCall(c).Register? && Inside(m, LowerCall(c).req)
  {
    SendTick(c);
    Tick(Accepted(c), Input(true, Read(m.data, LowerCall(c).req), 0))
  }

  lemma FinishKeeps(c: State, m: SimpleMem)
    requires AtRest(c, m) && Shapes(c) && LowerCall(c).Register? && Inside(m, LowerCall(c).req)
    ensures var o, m' := Finished(c, m), Served(m, LowerCall(c).req);
            && o.Ok? && AtRest(o.state, m') && |m'.data| == |m.data|
            && Cycles(c, m, 17) == Some((o.state, m'))
  {
    hide Tick, Invariant, Padded, FoundAt, AllocateOk, WriteBackOk, StoreBelowOk;
    var req := LowerCall(c).req;
    var p, a, data := Port(Padded(m.data), Free), Accepted(c), Read(m.data, req);
    SendTick(c);
    FsmOfInvariant(c, p);
    TickKeeps(c, p, Input(true, [], 0));
    var busy := Port(Padded(m.data), Busy(req));
    assert Invariant(a, busy);
    PerformKeeps(a, busy);
    PaddedRead(m.data, req);
    var ready := Port(Padded(Write(m.data, req)), Ready(req, data));
    assert Performed(busy) == ready;
    assert Legal(a, ready, Input(true, data, 0));
    NotLookup(a);
    TickKeeps(a, ready, Input(true, data, 0));
    Exchange(c, m);
    hide Write, Read;
    assert Cycles(c, m, 17) == Cycle(a, Served(m, req));
  }

  lemma NotLookup(c: State)
    requires Shapes(c) && LowerCall(c) != NoCall
    ensures !PrefetchOverruns(c)
  {}

  /** The request of `client` is not done during the first `n` cycles. */
  predicate QuietFor(c: State, m: SimpleMem, n: nat, client: nat) {
    forall k :: 0 <= k < n ==> Cycles(c, m, k).Some? && client !in Cycles(c, m, k).value.0.done
  }

  /** It is done after `n` cycles and not before. */
  predicate DoneIn(c: State, m: SimpleMem, n: nat, client: nat) {
    QuietFor(c, m, n, client) && Cycles(c, m, n).Some? && client in Cycles(c, m, n).value.0.done
  }

  lemma Later(c: State, m: SimpleMem, a: nat, b: nat, client: nat)
    requires QuietFor(c, m, a, client) && Cycles(c, m, a).Some?
    requires DoneIn(Cycles(c, m, a).value.0, Cycles(c, m, a).value.1, b, client)
    ensures DoneIn(c, m, a + b, client)
  {
    hide Cycles;
    var (d, n) := Cycles(c, m, a).value;
    forall k | 0 <= k < a + b
      ensures Cycles(c, m, k).Some? && client !in Cycles(c, m, k).value.0.done
    {
      if k >= a {
        CyclesCompose(c, m, a, k - a);
        assert Cycles(d, n, k - a).Some?;
      }
    }
    CyclesCompose(c, m, a, b);
  }

  /** An exchange with the memory is quiet for its seventeen cycles. */
  lemma ExchangeQuiet(c: State, m: SimpleMem, client: nat)
    requires AtRest(c, m) && Shapes(c) && LowerCall(c).Register? && Inside(m, LowerCall(c).req) && client !in c.done
    ensures QuietFor(c, m, 17, client)
  {
    hide Invariant;
    SendTick(c);
    Exchange(c, m);
    hide Cycles;
    assert Cycles(c, m, 0) == Some((c, m)) by { NoCycles(c, m); }
  }

  lemma NoCycles(c: State, m: SimpleMem)
    ensures Cycles(c, m, 0) == Some((c, m))
  {}

  /** A write-through commit, and a store going around the cache: seventeen cycles. */
  lemma StoreBelowTime(c: State, m: SimpleMem, client: nat)
    requires AtRest(c, m) && (c.fsm.ThroughCommit? || c.fsm.WriteAround?) && c.fsm.lower.Sending?
    requires c.fsm.caller.owner == Client(client) && Inside(m, c.fsm.lower.req)
    ensures DoneIn(c, m, 17, client)
  {
    FsmOfInvariant(c, Port(Padded(m.data), Free));
    hide Invariant, FoundAt, StoreBelowOk, Cycles;
    FinishKeeps(c, m);
    ExchangeQuiet(c, m, client);
    hide SetAt, LookupTick;
  }

  /** What a lookup that hits still needs: a write-through store has to reach the memory. */
  function HitTime(policy: WritePolicy, req: Request): nat {
    if req.Store? && (policy.WriteThroughWriteAllocate? || policy.WriteThroughNoWriteAllocate?) then 18 else 1
  }

  lemma OneCycle(c: State, m: SimpleMem)
    requires Shapes(c) && LowerCall(c).NoCall? && m.pending.None?
    ensures Cycles(c, m, 0) == Some((c, m))
    ensures Tick(c, Input(false, [], 0)).Ok? ==> Cycles(c, m, 1) == Some((Tick(c, Input(false, [], 0)).state, m))
  {
    hide Tick, Shapes;
    assert Cycles(c, m, 0) == Some((c, m));
  }

  lemma OneStep(c: State, m: SimpleMem, b: nat, client: nat)
    requires Shapes(c) && LowerCall(c).NoCall? && m.pending.None? && Tick(c, Input(false, [], 0)).Ok? && client !in c.done
    requires DoneIn(Tick(c, Input(false, [], 0)).state, m, b, client)
    ensures DoneIn(c, m, 1 + b, client)
  {
    hide Cycles, Tick, Shapes, DoneIn;
    OneCycle(c, m);
    assert QuietFor(c, m, 1, client);
    hide QuietFor;
    Later(c, m, 1, b, client);
  }

  lemma HitTakes(c: State, m: SimpleMem, job: Job, client: nat)
    requires AtRest(c, m) && c.fsm == Lookup(job) && job.owner == Client(client) && FoundAt(c, job.req.addr).Some?
    requires Inside(m, job.req)
    ensures DoneIn(c, m, HitTime(c.policy, job.req), client)
  {
    var p := Port(Padded(m.data), Free);
    FsmOfInvariant(c, p);
    TickKeeps(c, p, Input(false, [], 0));
    OneCycle(c, m);
    var c' := Tick(c, Input(false, [], 0)).state;
    FsmOfInvariant(c', p);
    LookupFlow(c, p, job, 0);
    hide Invariant, LookupTick, Cycles, FoundAt, Presented, Padded, AllocateOk, WriteBackOk;
    if job.req.Store? && c.policy.IsWriteThrough() {
      StoreBelowTime(c', m, client);
      OneStep(c, m, 17, client);
    }
  }

  lemma PenaltyTicks(c: State, m: SimpleMem)
    requires AtRest(c, m) && c.fsm.MissPenalty? && Shapes(c)
    ensures var r := Tick(c, Input(false, [], 0));
            && r.Ok? && AtRest(r.state, m) && Shapes(r.state) && c.backup.Some?
            && r.state == (if c.fsm.cycles > 0 then c.(fsm := MissPenalty(c.fsm.cycles - 1))
                           else c.(fsm := Lookup(c.backup.value), backup := None))
            && (c.fsm.cycles == 0 ==> FoundAt(r.state, r.state.fsm.job.req.addr).Some?)
  {
    var p := Port(Padded(m.data), Free);
    FsmOfInvariant(c, p);
    TickKeeps(c, p, Input(false, [], 0));
    PenaltyKeeps(c, p, Input(false, [], 0));
    hide Invariant, Consistent, FoundAt;
  }

  /** The refill's penalty, and then a lookup that hits. */
  lemma {:induction false} PenaltyTakes(c: State, m: SimpleMem, job: Job, client: nat)
    requires AtRest(c, m) && c.fsm.MissPenalty? && c.backup == Some(job) && job.owner == Client(client) && Inside(m, job.req)
    ensures DoneIn(c, m, c.fsm.cycles + 1 + HitTime(c.policy, job.req), client)
    decreases c.fsm.cycles
  {
    hide AtRest, Shapes, Cycles, QuietFor, DoneIn, FoundAt;
    RefillFacts(c, m, job, client);
    PenaltyTicks(c, m);
    var c' := Tick(c, Input(false, [], 0)).state;
    if c.fsm.cycles > 0 {
      PenaltyTakes(c', m, job, client);
      OneStep(c, m, c.fsm.cycles + HitTime(c.policy, job.req), client);
    } else {
      HitTakes(c', m, job, client);
      OneStep(c, m, HitTime(c.policy, job.req), client);
    }
  }

  lemma RefillFacts(c: State, m: SimpleMem, job: Job, client: nat)
    requires AtRest(c, m) && (c.fsm.Allocate? || c.fsm.WriteBack? || c.fsm.MissPenalty?)
    requires c.backup == Some(job) && job.owner == Client(client)
    ensures Shapes(c) && client !in c.done && m.pending.None?
  {
    FsmOfInvariant(c, Port(Padded(m.data), Free));
    hide Invariant, FoundAt, AllocateOk, WriteBackOk;
  }

  lemma FilledState(c: State, m: SimpleMem)
    requires Shapes(c) && c.fsm.Allocate? && c.fsm.lower.Sending? && c.backup.Some? && Inside(m, c.fsm.lower.req)
    requires Finished(c, m).Ok?
    ensures var c' := Finished(c, m).state;
            c'.fsm == MissPenalty(c.missPenalty) && c'.backup == c.backup && c'.policy == c.policy && c'.done == c.done
  {
    hide SetAt, InsertBlock, Shapes;
  }

  /** The refill of a clean victim: penalty plus nineteen cycles, and seventeen more for a write-through store. */
  lemma AllocateTakes(c: State, m: SimpleMem, job: Job, client: nat)
    requires AtRest(c, m) && c.fsm.Allocate? && c.fsm.lower.Sending? && c.backup == Some(job) && job.owner == Client(client)
    requires Inside(m, job.req) && Inside(m, c.fsm.lower.req)
    ensures DoneIn(c, m, c.missPenalty + 18 + HitTime(c.policy, job.req), client)
  {
    hide AtRest, Shapes, Cycles, QuietFor, DoneIn, Finished, Served;
    RefillFacts(c, m, job, client);
    FinishKeeps(c, m);
    ExchangeQuiet(c, m, client);
    FilledState(c, m);
    var c', m' := Finished(c, m).state, Served(m, c.fsm.lower.req);
    PenaltyTakes(c', m', job, client);
    Later(c, m, 17, c.missPenalty + 1 + HitTime(c.policy, job.req), client);
  }

  lemma WrittenBackState(c: State, m: SimpleMem)
    requires Shapes(c) && c.fsm.WriteBack? && c.fsm.lower.Sending? && c.backup.Some? && Inside(m, c.fsm.lower.req)
    requires Finished(c, m).Ok?
    ensures var c' := Finished(c, m).state;
            && c'.fsm == Allocate(Sending(Load(BlockBase(c.g, c.backup.value.req.addr), Pow2(c.g.offsetBits))), c.fsm.way)
            && c'.backup == c.backup && c'.policy == c.policy && c'.done == c.done && c'.missPenalty == c.missPenalty
  {
    hide SetAt, Shapes, Pow2;
  }

  /** A dirty victim costs one more exchange: penalty plus thirty-six cycles. */
  lemma WriteBackTakes(c: State, m: SimpleMem, job: Job, client: nat)
    requires AtRest(c, m) && c.fsm.WriteBack? && c.fsm.lower.Sending? && c.backup == Some(job) && job.owner == Client(client)
    requires Shapes(c) && Inside(m, job.req) && Inside(m, c.fsm.lower.req) && BlockInside(c.g, m, job.req.addr)
    ensures DoneIn(c, m, c.missPenalty + 35 + HitTime(c.policy, job.req), client)
  {
    hide AtRest, Shapes, Cycles, BlockBase, QuietFor, DoneIn, Finished, Served;
    RefillFacts(c, m, job, client);
    FinishKeeps(c, m);
    ExchangeQuiet(c, m, client);
    WrittenBackState(c, m);
    var c', m' := Finished(c, m).state, Served(m, c.fsm.lower.req);
    AllocateTakes(c', m', job, client);
    Later(c, m, 17, c.missPenalty + 18 + HitTime(c.policy, job.req), client);
  }

  // ---------- The time of a request ----------

  /** Cycles from registration to completion, by the outcome of the first tag comparison. */
  function ServiceTime(c: State, req: Request, random: nat): nat
    requires Shapes(c)
  {
    var policy := c.policy;
    var through := if req.Store? && (policy.WriteThroughWriteAllocate? || policy.WriteThroughNoWriteAllocate?) then 17 else 0;
    match TagCompare(SetAt(c, req.addr), Tag(c.g, req.addr), random)
    case Hit(_) => through
    case Miss(writeBack, _, _) =>
      if req.Store? && (policy.WriteBackNoWriteAllocate? || policy.WriteThroughNoWriteAllocate?) then 17
      else c.missPenalty + (if writeBack then 36 else 19) + through
    case EmptyQueue => 0
  }

  /** The blocks that an eviction could write back lie in the memory. */
  predicate VictimsInside(c: State, m: SimpleMem, addr: Word)
    requires Shapes(c)
  {
    var s := SetAt(c, addr);
    forall w :: 0 <= w < c.g.ways && s.valid[w] ==>
      Inside(m, Store(BlockAddr(c.g, s.tags[w], Index(c.g, addr)), s.blocks[w]))
  }

  /** What the lookup of a new request leaves to do. */
  lemma LookupLeaves(c: State, m: SimpleMem, job: Job, random: nat)
    requires AtRest(c, m) && c.fsm == Lookup(job) && job.owner.Client?
    requires VictimsInside(c, m, job.req.addr) && BlockInside(c.g, m, job.req.addr)
    requires LookupTick(c, job, random).Ok?
    ensures var r := LookupTick(c, job, random).state;
            && r.missPenalty == c.missPenalty && r.policy == c.policy && r.g == c.g
            && match TagCompare(SetAt(c, job.req.addr), Tag(c.g, job.req.addr), random)
               case Hit(_) =>
                 if job.req.Store? && c.policy.IsWriteThrough() then
                   r.fsm == ThroughCommit(Sending(Store(job.req.addr, job.req.data)), job)
                 else r.done == Complete(c.done, job.owner, r.done[job.owner.id]) && job.owner.id in r.done
               case Miss(writeBack, victim, _) =>
                 if job.req.Store? && c.policy.IsNoWriteAllocate() then r.fsm == WriteAround(Sending(job.req), job)
                 else
                   && r.backup == Some(job)
                   && (if writeBack then r.fsm.WriteBack? else r.fsm.Allocate?)
                   && r.fsm.lower.Sending? && Inside(m, r.fsm.lower.req)
               case EmptyQueue => false
  {
    var addr := job.req.addr;
    SplitMeaning(c.g, addr);
    SplitThenJoin(c.g, addr);
    EvictContract(SetAt(c, addr).rp, random);
    hide Invariant, Tag, Index, Offset, BlockAddr, Evict, WellFormed, Predict, Enqueue, Promote, Find;
  }

  lemma SetIsShaped(c: State, addr: Word)
    requires Shapes(c)
    ensures Sliceable(c.g) && Shaped(SetAt(c, addr))
  {
    SplitMeaning(c.g, addr);
    hide Tag, Index, Offset, Shaped;
  }

  lemma DoneAtOnce(c: State, m: SimpleMem, client: nat)
    requires client in c.done
    ensures DoneIn(c, m, 0, client)
  {
    NoCycles(c, m);
    hide Cycles;
  }

  lemma LookupTakes(c: State, m: SimpleMem, job: Job, random: nat, client: nat)
    requires AtRest(c, m) && c.fsm == Lookup(job) && job.owner == Client(client) && Inside(m, job.req) && Shapes(c)
    requires VictimsInside(c, m, job.req.addr) && BlockInside(c.g, m, job.req.addr)
    requires LookupTick(c, job, random).Ok? && AtRest(LookupTick(c, job, random).state, m)
    ensures DoneIn(LookupTick(c, job, random).state, m, ServiceTime(c, job.req, random), client)
  {
    hide AtRest, LookupTick, SetAt, Cycles, BlockBase, TagCompare, Tag, Shapes, DoneIn, QuietFor, VictimsInside;
    LookupLeaves(c, m, job, random);
    SetIsShaped(c, job.req.addr);
    var r := LookupTick(c, job, random).state;
    match TagCompare(SetAt(c, job.req.addr), Tag(c.g, job.req.addr), random) {
      case Hit(_) =>
        if job.req.Store? && c.policy.IsWriteThrough() {
          StoreBelowTime(r, m, client);
        } else {
          DoneAtOnce(r, m, client);
        }
      case Miss(writeBack, _, _) =>
        if job.req.Store? && c.policy.IsNoWriteAllocate() {
          StoreBelowTime(r, m, client);
        } else if writeBack {
          RefillFacts(r, m, job, client);
          OnlyWriteBack(r, m);
          WriteBackTakes(r, m, job, client);
        } else {
          AllocateTakes(r, m, job, client);
        }
      case EmptyQueue =>
    }
  }

  lemma OnlyWriteBack(c: State, m: SimpleMem)
    requires AtRest(c, m) && c.fsm.WriteBack?
    ensures c.policy.IsWriteBack()
  {
    FsmOfInvariant(c, Port(Padded(m.data), Free));
    hide Invariant, WriteBackOk;
  }

  /** Exact latency: an idle cache accepts an aligned request, and it is done after exactly its service time: at once
      for a hit, penalty + 19 cycles for a miss with a clean victim, penalty + 36 with a dirty one, 17 for a store that
      only goes below, and 17 more for a write-through store that had to be refilled first. */
  lemma ServiceIsExact(c: State, m: SimpleMem, client: nat, req: Request, random: nat)
    requires AtRest(c, m) && c.fsm.Idle? && Shapes(c) && c.g.blockSize >= 4 && AlignmentOk(req.addr, req.Len(), c.g.blockSize)
    requires Inside(m, req) && BlockInside(c.g, m, req.addr) && VictimsInside(c, m, req.addr)
    ensures var (accepted, r) := TryRegister(c, client, req, random);
            accepted && r.Ok? && AtRest(r.state, m) && DoneIn(r.state, m, ServiceTime(c, req, random), client)
  {
    hide AtRest, Shapes, LookupTick, TryRegister, DoneIn, BlockBase, VictimsInside, AlignmentOk, ServiceTime;
    RegisteredSame(c, m, client, req, random);
    RegisteredAtRest(c, m, client, req, random);
    var c1 := Registered(c, client, req);
    LookupTakes(c1, m, Job(Client(client), req), random, client);
  }

  /** The first load of a new cache with miss penalty `penalty`, of any policies, is a miss without a victim to write
      back: it is done after exactly penalty + 19 cycles. */
  lemma FirstLoadTakes(g: Geometry, kind: PolicyKind, policy: WritePolicy, prefetcher: Prefetcher, penalty: nat,
                       data: seq<Byte>, client: nat, addr: Word, len: nat, random: nat)
    requires Sliceable(g) && g.ways >= 1 && g.blockSize >= 4 && |data| <= TWO_32 && Supported(policy)
    requires AlignmentOk(addr, len, g.blockSize)
    requires var m := NewSimpleMem(data); Inside(m, Load(addr, len)) && BlockInside(g, m, addr)
    ensures var c, m := NewCache(g, kind, policy, prefetcher, penalty), NewSimpleMem(data);
            && Shapes(c)
            && var (accepted, r) := TryRegister(c, client, Load(addr, len), random);
               accepted && r.Ok? && DoneIn(r.state, m, penalty + 19, client)
  {
    var c, m := NewCache(g, kind, policy, prefetcher, penalty), NewSimpleMem(data);
    NewAtRest(g, kind, policy, prefetcher, penalty, data, addr, len, random);
    hide NewCache, NewSimpleMem, AtRest, Shapes, TryRegister, DoneIn, AlignmentOk, BlockBase, ServiceTime, VictimsInside;
    ServiceIsExact(c, m, client, Load(addr, len), random);
  }

  lemma NewAtRest(g: Geometry, kind: PolicyKind, policy: WritePolicy, prefetcher: Prefetcher, penalty: nat,
                  data: seq<Byte>, addr: Word, len: nat, random: nat)
    requires Sliceable(g) && g.ways >= 1 && |data| <= TWO_32 && Supported(policy)
    ensures var c, m := NewCache(g, kind, policy, prefetcher, penalty), NewSimpleMem(data);
            && Shapes(c) && c.fsm.Idle? && c.g == g
            && AtRest(c, m) && VictimsInside(c, m, addr) && ServiceTime(c, Load(addr, len), random) == penalty + 19
  {
    var c, m := NewCache(g, kind, policy, prefetcher, penalty), NewSimpleMem(data);
    NewCachePresents(g, kind, policy, prefetcher, penalty, Padded(data));
    assert Shapes(c);
    hide Sane, Tracks, Presented, Padded, Inside;
    SplitMeaning(g, addr);
    hide Index, Tag;
    NewMisses(c, addr, random);
    hide TagCompare;
  }

  /** No way of a new cache is valid. */
  lemma NewMisses(c: State, addr: Word, random: nat)
    requires Shapes(c) && forall i, w :: 0 <= i < |c.sets| && 0 <= w < c.g.ways ==> !c.sets[i].valid[w] && !c.sets[i].dirty[w]
    ensures Sliceable(c.g) && Shaped(SetAt(c, addr))
    ensures TagCompare(SetAt(c, addr), Tag(c.g, addr), random).Miss?
    ensures !TagCompare(SetAt(c, addr), Tag(c.g, addr), random).writeBack
  {
    SplitMeaning(c.g, addr);
    EvictContract(SetAt(c, addr).rp, random);
    hide Evict, Tag, Index, WellFormed;
  }

  lemma RegisteredSame(c: State, m: SimpleMem, client: nat, req: Request, random: nat)
    requires Shapes(c)
    ensures var c1 := Registered(c, client, req);
            && Shapes(c1) && ServiceTime(c1, req, random) == ServiceTime(c, req, random)
            && (VictimsInside(c1, m, req.addr) <==> VictimsInside(c, m, req.addr))
  {
    hide Tag, Index, BlockAddr, TagCompare, Shaped, Inside;
  }

  lemma RegisteredAtRest(c: State, m: SimpleMem, client: nat, req: Request, random: nat)
    requires AtRest(c, m) && c.fsm.Idle? && Shapes(c) && c.g.blockSize >= 4 && AlignmentOk(req.addr, req.Len(), c.g.blockSize)
    ensures var c1 := Registered(c, client, req);
            && AtRest(c1, m) && Shapes(c1)
            && var r := LookupTick(c1, c1.fsm.job, random);
               r.Ok? && AtRest(r.state, m) && TryRegister(c, client, req, random) == (true, r)
  {
    var p := Port(Padded(m.data), Free);
    FsmOfInvariant(c, p);
    hide Invariant, LookupTick, TryRegister, Tag, Index, BlockAddr, TagCompare, Shaped, Padded, AlignmentOk;
    RegisterIsPortStep(c, p, client, req, random);
    RegisterIsLookup(c, client, req, random);
    RegisteredOk(c, p, client, req);
  }
}
