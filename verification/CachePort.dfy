/** A cache over a port is a port: what its clients see of it is what it assumes of the memory below. */
module CachePort {
  import opened Words
  import opened CacheConfig
  import opened Replacement
  import opened CacheSet
  import opened MemoryPort
  import opened CacheView
  import opened Cache
  import opened CacheProof

  /** The slot of a client whose outstanding request is `req`. */
  function SlotFor(c: State, p: Port, client: nat, req: Request): Slot {
    if client in c.done then Ready(req, c.done[client])
    else if Current(c) == Some(Job(Client(client), req)) then
      if Committed(c, p) then Ready(req, []) else Busy(req)
    else Free
  }

  /** The cache as that client sees it. */
  function PortFor(c: State, p: Port, client: nat, req: Request): Port
    requires Shapes(c)
  {
    Port(Presented(c, p), SlotFor(c, p, client, req))
  }

  /** No other client is storing. */
  predicate OthersOnlyLoad(c: State, client: nat) {
    Current(c).Some? && Current(c).value.owner.Client? && Current(c).value.owner.id != client ==>
      Current(c).value.req.Load?
  }

  lemma JobInSpace(c: State, p: Port, job: Job)
    requires Invariant(c, p) && Current(c) == Some(job) && job.owner.Client?
    ensures job.req.InSpace()
  {
    FsmOfInvariant(c, p);
    hide Tag, Index, Offset, BlockAddr, Invariant;
    BlockEnds(c.g, job.req.addr, job.req.Len());
  }

  /** The memory below performing a request is, for every client, nothing or its own store being performed. */
  lemma PerformIsPortStep(c: State, p: Port, client: nat, req: Request)
    requires Invariant(c, p) && p.slot.Busy? && OthersOnlyLoad(c, client)
    ensures Invariant(c, Performed(p))
    ensures SlotFor(c, p, client, req) != Free ==>
              MayBecome(PortFor(c, p, client, req), PortFor(c, Performed(p), client, req))
  {
    FsmOfInvariant(c, p);
    PerformKeeps(c, p);
    hide Invariant, Presented, WriteBackOk, AllocateOk, FoundAt;
    if c.fsm.WriteAround? {
      JobInSpace(c, p, c.fsm.caller);
    }
  }

  /** The job in the machine stays the same until it is done; a store that is committed stays so. */
  predicate JobFlow(c: State, p: Port, c': State, p': Port)
    requires Shapes(c)
  {
    match c.fsm
    case Idle => Current(c').Some? ==> Current(c').value.owner.Synthetic?
    case Lookup(job) =>
      if FoundAt(c, job.req.addr).None? then Current(c') == Some(job) && !Committed(c', p')
      else if job.req.Store? && c.policy.IsWriteThrough() then Current(c') == Some(job) && c'.fsm.ThroughCommit?
      else Current(c') == None
    case ThroughCommit(_, _) => c'.fsm.Idle? || (c'.fsm.ThroughCommit? && Current(c') == Current(c))
    case WriteAround(_, _) =>
      c'.fsm.Idle? || (c'.fsm.WriteAround? && Current(c') == Current(c) && (StoredBelow(p') <==> StoredBelow(p)))
    case _ => Current(c') == Current(c) && !Committed(c', p')
  }

  lemma LookupFlow(c: State, p: Port, job: Job, random: nat)
    requires Invariant(c, p) && c.fsm == Lookup(job) && LookupTick(c, job, random).Ok?
    ensures JobFlow(c, p, LookupTick(c, job, random).state, p)
  {
    hide Tag, Index, Offset, BlockAddr, Invariant, Evict, Presented, Predict, Enqueue, Promote, Patch;
    FsmOfInvariant(c, p);
    LookupKeeps(c, p, job, random);
    var c' := LookupTick(c, job, random).state;
    FsmOfInvariant(c', p);
  }

  lemma TickFlow(c: State, p: Port, inp: Input)
    requires Invariant(c, p) && Legal(c, p, inp) && Tick(c, inp).Ok?
    ensures JobFlow(c, p, Tick(c, inp).state, Below(c, p, inp))
  {
    hide Tag, Index, Offset, BlockAddr, Invariant, LookupTick, FoundAt, WriteBackOk, AllocateOk, TickEffect, PutSet, JobFlow;
    FsmOfInvariant(c, p);
    TickKeeps(c, p, inp);
    FsmOfInvariant(Tick(c, inp).state, Below(c, p, inp));
    if c.fsm.Lookup? {
      LookupFlow(c, p, c.fsm.job, inp.random);
    } else {
      OtherFlow(c, p, inp);
    }
  }

  lemma OtherFlow(c: State, p: Port, inp: Input)
    requires Shapes(c) && FsmOk(c, p) && c.pending.None? && !c.fsm.Lookup? && Legal(c, p, inp) && Tick(c, inp).Ok?
    ensures JobFlow(c, p, Tick(c, inp).state, Below(c, p, inp))
  {
    hide Tag, Index, Offset, BlockAddr, LookupTick, FoundAt, WriteBackOk, AllocateOk, InsertBlock, SetAt, Shaped;
  }

  /** A tick of the cache is, for every client with a request outstanding, nothing or that request being performed,
      with the bytes of the memory it sees. */
  lemma TickIsPortStep(c: State, p: Port, inp: Input, client: nat, req: Request)
    requires Invariant(c, p) && Legal(c, p, inp) && OthersOnlyLoad(c, client)
    requires Tick(c, inp).Ok? && SlotFor(c, p, client, req) != Free
    ensures Invariant(Tick(c, inp).state, Below(c, p, inp))
    ensures MayBecome(PortFor(c, p, client, req), PortFor(Tick(c, inp).state, Below(c, p, inp), client, req))
  {
    FsmOfInvariant(c, p);
    TickKeeps(c, p, inp);
    TickFlow(c, p, inp);
    var c', p' := Tick(c, inp).state, Below(c, p, inp);
    FsmOfInvariant(c', p');
    if Current(c).Some? && Current(c).value.owner.Client? {
      JobInSpace(c, p, Current(c).value);
    }
    hide Tick, Below;
    EffectIsPortStep(c, p, c', p', client, req);
  }

  lemma EffectIsPortStep(c: State, p: Port, c': State, p': Port, client: nat, req: Request)
    requires Shapes(c) && Shapes(c') && FsmOk(c, p) && FsmOk(c', p') && NotDoneYet(c) && NotDoneYet(c')
    requires c.pending.None? && c'.pending.None?
    requires TickEffect(c, p, c', p') && JobFlow(c, p, c', p') && OthersOnlyLoad(c, client)
    requires Current(c).Some? && Current(c).value.owner.Client? ==> Current(c).value.req.InSpace()
    requires SlotFor(c, p, client, req) != Free
    ensures MayBecome(PortFor(c, p, client, req), PortFor(c', p', client, req))
  {
    hide Presented, FoundAt, WriteBackOk, AllocateOk, Shapes, LowerOk, Offset;
  }

  // ---------- Registration ----------

  /** The state in which the request just registered is looked up. */
  function Registered(c: State, client: nat, req: Request): State {
    c.(fsm := Lookup(Job(Client(client), req)), done := c.done - {client})
  }

  lemma RegisteredSane(c: State, p: Port, client: nat, req: Request)
    requires Sane(c, p) && c.fsm.Idle? && AlignmentOk(req.addr, req.Len(), c.g.blockSize) && c.g.blockSize >= 4
    ensures Kept(c, p, Registered(c, client, req), p)
    ensures Presented(Registered(c, client, req), p) == Presented(c, p)
  {
    AlignedRequestFits(c.g, req.addr, req.Len());
    hide Tag, Index, Offset, BlockAddr, SetOk, ThroughIsClean, AlignmentOk;
  }

  lemma RegisteredOk(c: State, p: Port, client: nat, req: Request)
    requires Invariant(c, p) && c.fsm.Idle? && AlignmentOk(req.addr, req.Len(), c.g.blockSize) && c.g.blockSize >= 4
    ensures Invariant(Registered(c, client, req), p)
    ensures Presented(Registered(c, client, req), p) == Presented(c, p)
  {
    FsmOfInvariant(c, p);
    hide Sane, Tracks, Presented, AlignmentOk;
    RegisteredSane(c, p, client, req);
  }

  /** A new request is accepted when the cache is idle, and only then; from that moment the client has it
      outstanding on the memory it saw before, and a hit is performed at once. */
  lemma RegisterIsPortStep(c: State, p: Port, client: nat, req: Request, random: nat)
    requires Invariant(c, p) && AlignmentOk(req.addr, req.Len(), c.g.blockSize) && c.g.blockSize >= 4
    ensures var (accepted, r) := TryRegister(c, client, req, random);
            && r.Ok? && Invariant(r.state, p)
            && (accepted <==> c.fsm.Idle?)
            && (!accepted ==> r.state == c)
            && (accepted ==>
                  && SlotFor(r.state, p, client, req) != Free
                  && MayBecome(Port(Presented(c, p), Busy(req)), PortFor(r.state, p, client, req)))
  {
    FsmOfInvariant(c, p);
    hide Invariant, Presented, AlignmentOk, LookupTick;
    if c.fsm.Idle? {
      RegisterIsLookup(c, client, req, random);
      var c1 := Registered(c, client, req);
      RegisteredOk(c, p, client, req);
      LookupStep(c1, p, client, req, random);
    }
  }

  lemma LookupStep(c: State, p: Port, client: nat, req: Request, random: nat)
    requires Invariant(c, p) && c.fsm.Lookup? && c.fsm.job.owner.Client? && OthersOnlyLoad(c, client)
    requires SlotFor(c, p, client, req) != Free
    ensures var r := LookupTick(c, c.fsm.job, random);
            && r.Ok? && Invariant(r.state, p)
            && SlotFor(r.state, p, client, req) != Free
            && MayBecome(PortFor(c, p, client, req), PortFor(r.state, p, client, req))
            && (Current(r.state).None? || Current(r.state) == Some(c.fsm.job))
  {
    FsmOfInvariant(c, p);
    var job := c.fsm.job;
    LookupKeeps(c, p, job, random);
    var r := LookupTick(c, job, random);
    assert r.Ok?;
    FsmOfInvariant(r.state, p);
    LookupFlow(c, p, job, random);
    JobInSpace(c, p, job);
    hide LookupTick, Invariant, HitEffect, JobFlow;
    EffectIsPortStep(c, p, r.state, p, client, req);
  }

  /** A load registered by another client changes nothing for a client that is waiting. */
  lemma OtherRegisterIsInvisible(c: State, p: Port, other: nat, load: Request, random: nat, client: nat, req: Request)
    requires Invariant(c, p) && AlignmentOk(load.addr, load.Len(), c.g.blockSize) && c.g.blockSize >= 4
    requires load.Load? && other != client && SlotFor(c, p, client, req) != Free
    ensures var (accepted, r) := TryRegister(c, other, load, random);
            && r.Ok? && Invariant(r.state, p)
            && MayBecome(PortFor(c, p, client, req), PortFor(r.state, p, client, req))
  {
    FsmOfInvariant(c, p);
    hide Invariant, Presented, AlignmentOk, LookupTick;
    if c.fsm.Idle? {
      RegisterIsLookup(c, other, load, random);
      var c1 := Registered(c, other, load);
      RegisteredOk(c, p, other, load);
      LookupStep(c1, p, client, req, random);
    }
  }

  // ---------- Finished requests ----------

  lemma LookupKeepsDone(c: State, job: Job, random: nat)
    requires Shapes(c) && LookupTick(c, job, random).Ok?
    ensures c.done.Keys <= LookupTick(c, job, random).state.done.Keys
  {
    hide Tag, Index, Offset, BlockAddr, Predict, Enqueue, Pow2,
      SetAt, TagCompare;
  }

  /** A finished request stays so until its client registers another one. */
  lemma DoneStays(c: State, inp: Input)
    requires Shapes(c) && Tick(c, inp).Ok?
    ensures c.done.Keys <= Tick(c, inp).state.done.Keys
  {
    hide Tag, Index, Offset, BlockAddr, Pow2, LookupTick, SetAt;
    if c.fsm.Lookup? {
      LookupKeepsDone(c, c.fsm.job, inp.random);
    }
  }
}
