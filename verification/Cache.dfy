/** The cache controller (general_cache/mod.rs): one clock tick of its seven-state machine, and the registration of
    a request, as functions of its state and of what the memory below answers. */
module Cache {
  import opened Words
  import opened CacheConfig
  import opened Replacement
  import opened CacheSet
  import opened MemoryPort

  /** Whose request is being served: a client's, or a synthetic load of the prefetcher nobody looks at. */
  datatype Owner = Client(id: nat) | Synthetic

  datatype Job = Job(owner: Owner, req: Request)

  /** A request to the memory below (lower_memory.rs): to be accepted yet, or accepted. */
  datatype Lower = Sending(req: Request) | Waiting(req: Request)

  datatype Fsm =
    | Idle
    | Lookup(job: Job)
    | WriteBack(lower: Lower, way: nat)
    | Allocate(lower: Lower, way: nat)
    | MissPenalty(cycles: nat)
    | ThroughCommit(lower: Lower, caller: Job)
    | WriteAround(lower: Lower, caller: Job)

  /** `done` holds the finished requests' buffers: client `id`'s latest request is done when `id` is in it. */
  datatype State = State(
    g: Geometry,
    policy: WritePolicy,
    prefetcher: Prefetcher,
    missPenalty: nat,
    sets: seq<SetState>,
    fsm: Fsm,
    pending: Option<Job>,
    backup: Option<Job>,
    prefetchQueue: seq<Word>,
    prefetching: bool,
    done: map<nat, seq<Byte>>)

  /** The answer of the memory below in one tick: whether it accepts what is sent or has finished what is waited
      for, and with which bytes; and the random generator's next number. */
  datatype Input = Input(ok: bool, data: seq<Byte>, random: nat)

  datatype Panic =
    | EmptyFifoQueue       // eviction from an empty queue
    | InvalidBlockRead     // write-back of a way that is not valid
    | BlockOverrun         // an access running past the end of its block
    | MissingBackup        // no request to resume after a refill
    | WrongRefill          // a refill of the wrong length
    | Misaligned           // a request that fails the alignment check

  datatype Outcome = Ok(state: State) | Abort(panic: Panic)

  /** The lengths of the arrays agree with the geometry. */
  predicate Shapes(c: State) {
    && Sliceable(c.g)
    && c.g.ways >= 1
    && |c.sets| == c.g.sets
    && (forall i :: 0 <= i < |c.sets| ==>
          Shaped(c.sets[i]) && c.sets[i].ways == c.g.ways && c.sets[i].blockSize == c.g.blockSize)
    && (c.fsm.WriteBack? || c.fsm.Allocate? ==> c.fsm.way < c.g.ways)
  }

  function NewCache(g: Geometry, kind: PolicyKind, policy: WritePolicy, prefetcher: Prefetcher, penalty: nat): State
    requires Sliceable(g) && g.ways >= 1
  {
    State(g, policy, prefetcher, penalty, seq(g.sets, i => NewSet(kind, g.ways, g.blockSize)), Idle, None, None, [], false,
          map[])
  }

  function Complete(done: map<nat, seq<Byte>>, owner: Owner, data: seq<Byte>): map<nat, seq<Byte>> {
    if owner.Client? then done[owner.id := data] else done
  }

  // ---------- Requests to the memory below ----------

  /** What the tick asks of the memory below: to accept a request, to say whether one is done, or nothing. */
  datatype Call = NoCall | Register(req: Request) | Poll(req: Request)

  function CallOf(lower: Lower): Call {
    match lower
    case Sending(req) => Register(req)
    case Waiting(req) => Poll(req)
  }

  function LowerCall(c: State): Call {
    match c.fsm
    case WriteBack(lower, _) => CallOf(lower)
    case Allocate(lower, _) => CallOf(lower)
    case ThroughCommit(lower, _) => CallOf(lower)
    case WriteAround(lower, _) => CallOf(lower)
    case _ => NoCall
  }

  /** Send the request until it is accepted, then wait; the flag says that it is done. */
  function ProgressLower(lower: Lower, ok: bool): (Lower, bool) {
    match lower
    case Sending(req) => (if ok then Waiting(req) else lower, false)
    case Waiting(_) => (lower, ok)
  }

  // ---------- Lookup ----------

  function SetAt(c: State, addr: Word): SetState
    requires Shapes(c)
  {
    SplitMeaning(c.g, addr);
    c.sets[Index(c.g, addr)]
  }

  function PutSet(c: State, addr: Word, s: SetState): State
    requires Shapes(c)
  {
    SplitMeaning(c.g, addr);
    c.(sets := c.sets[Index(c.g, addr) := s])
  }

  function HitTick(c: State, job: Job, way: nat): Outcome
    requires Shapes(c) && way < c.g.ways
  {
    var addr, len, offset := job.req.addr, job.req.Len(), Offset(c.g, job.req.addr);
    var s := Touch(SetAt(c, addr), way);
    PromoteContract(SetAt(c, addr).rp, way);
    if offset + len > c.g.blockSize then Abort(BlockOverrun)
    else
      match job.req
      case Load(_, _) =>
        Ok(PutSet(c, addr, s).(fsm := Idle, done := Complete(c.done, job.owner, s.blocks[way][offset..offset + len])))
      case Store(_, data) =>
        var block := Patch(s.blocks[way], offset, data);
        if c.policy.IsWriteThrough() then
          Ok(PutSet(c, addr, WriteBlockClean(s, way, block)).(fsm := ThroughCommit(Sending(Store(addr, data)), job)))
        else
          Ok(PutSet(c, addr, WriteBlock(s, way, block)).(fsm := Idle, done := Complete(c.done, job.owner, [])))
  }

  function MissTick(c: State, job: Job, writeBack: bool, victim: nat, rp: Policy): Outcome
    requires Shapes(c) && victim < c.g.ways && |rp.valid| == c.g.ways && WellFormed(rp)
  {
    var addr := job.req.addr;
    var s := SetAt(c, addr).(rp := rp);
    if job.req.Store? && c.policy.IsNoWriteAllocate() then
      Ok(PutSet(c, addr, s).(fsm := WriteAround(Sending(job.req), job)))
    else if writeBack then
      if !s.valid[victim] then Abort(InvalidBlockRead)
      else
        var wbAddr := BlockAddr(c.g, s.tags[victim], Index(c.g, addr));
        Ok(PutSet(c, addr, Touch(s, victim)).(
           backup := Some(job), fsm := WriteBack(Sending(Store(wbAddr, s.blocks[victim])), victim)))
    else
      var allocAddr := BlockAddr(c.g, Tag(c.g, addr), Index(c.g, addr));
      Ok(PutSet(c, addr, s).(
         backup := Some(job), fsm := Allocate(Sending(Load(allocAddr, Pow2(c.g.offsetBits))), victim)))
  }

  /** The prefetcher's suggestions that are not queued already. */
  function Enqueue(queue: seq<Word>, addrs: seq<Word>): seq<Word>
    decreases |addrs|
  {
    if |addrs| == 0 then queue
    else Enqueue(if addrs[0] in queue then queue else queue + [addrs[0]], addrs[1..])
  }

  /** After a lookup: a prefetch that hit is over, and a demand access may predict the next ones. */
  function AfterLookup(c: State, before: State, addr: Word, hit: bool): State
    requires before.g.blockSize > 0
  {
    if before.prefetching then (if hit then c.(prefetching := false) else c)
    else c.(prefetchQueue := Enqueue(c.prefetchQueue, Predict(c.prefetcher, addr, before.g.blockSize)))
  }

  function LookupTick(c: State, job: Job, random: nat): Outcome
    requires Shapes(c)
  {
    var addr := job.req.addr;
    SplitMeaning(c.g, addr);
    match TagCompare(SetAt(c, addr), Tag(c.g, addr), random)
    case EmptyQueue => Abort(EmptyFifoQueue)
    case Hit(way) =>
      (match HitTick(c, job, way)
       case Abort(p) => Abort(p)
       case Ok(c') => Ok(AfterLookup(c', c, addr, true)))
    case Miss(writeBack, victim, rp) =>
      EvictContract(SetAt(c, addr).rp, random);
      (match MissTick(c, job, writeBack, victim, rp)
       case Abort(p) => Abort(p)
       case Ok(c') => Ok(AfterLookup(c', c, addr, false)))
  }

  // ---------- The other states ----------

  function IdleTick(c: State): State {
    if c.pending.None? && !c.prefetching && |c.prefetchQueue| > 0 then
      c.(fsm := Lookup(Job(Synthetic, Load(c.prefetchQueue[0], c.g.blockSize))), prefetching := true,
         prefetchQueue := c.prefetchQueue[1..])
    else if c.pending.Some? then c.(fsm := Lookup(c.pending.value), pending := None)
    else c
  }

  /** The address with its offset bits masked off. */
  function BlockBase(g: Geometry, addr: Word): Word {
    ModAtMost(addr, Pow2(g.offsetBits));
    addr - addr % Pow2(g.offsetBits)
  }

  function WriteBackTick(c: State, lower: Lower, way: nat, ok: bool): Outcome
    requires Shapes(c)
  {
    var (lower', finished) := ProgressLower(lower, ok);
    if !finished then Ok(c.(fsm := WriteBack(lower', way)))
    else if c.backup.None? then Abort(MissingBackup)
    else
      var allocAddr := BlockBase(c.g, c.backup.value.req.addr);
      Ok(c.(fsm := Allocate(Sending(Load(allocAddr, Pow2(c.g.offsetBits))), way)))
  }

  function AllocateTick(c: State, lower: Lower, way: nat, inp: Input): Outcome
    requires Shapes(c) && way < c.g.ways
  {
    var (lower', finished) := ProgressLower(lower, inp.ok);
    if !finished then Ok(c.(fsm := Allocate(lower', way)))
    else if c.backup.None? then Abort(MissingBackup)
    else if |inp.data| != c.g.blockSize then Abort(WrongRefill)
    else
      var addr := c.backup.value.req.addr;
      Ok(PutSet(c, addr, InsertBlock(SetAt(c, addr), way, Tag(c.g, addr), inp.data)).(fsm := MissPenalty(c.missPenalty)))
  }

  function Tick(c: State, inp: Input): Outcome
    requires Shapes(c)
  {
    match c.fsm
    case Idle => Ok(IdleTick(c))
    case Lookup(job) => LookupTick(c, job, inp.random)
    case WriteBack(lower, way) => WriteBackTick(c, lower, way, inp.ok)
    case Allocate(lower, way) => AllocateTick(c, lower, way, inp)
    case MissPenalty(cycles) =>
      if cycles > 0 then Ok(c.(fsm := MissPenalty(cycles - 1)))
      else if c.backup.None? then Abort(MissingBackup)
      else Ok(c.(fsm := Lookup(c.backup.value), backup := None))
    case ThroughCommit(lower, caller) =>
      var (lower', finished) := ProgressLower(lower, inp.ok);
      if finished then Ok(c.(fsm := Idle, done := Complete(c.done, caller.owner, [])))
      else Ok(c.(fsm := ThroughCommit(lower', caller)))
    case WriteAround(lower, caller) =>
      var (lower', finished) := ProgressLower(lower, inp.ok);
      if finished then Ok(c.(fsm := Idle, done := Complete(c.done, caller.owner, [])))
      else Ok(c.(fsm := WriteAround(lower', caller)))
  }

  // ---------- Registration ----------

  /** Registration is refused unless the machine is idle; once accepted, two ticks run at once, so that a hit is
      done when registration returns. The request of the client is a new one, not done yet. */
  function TryRegister(c: State, client: nat, req: Request, random: nat): (bool, Outcome)
    requires Shapes(c)
  {
    if !AlignmentOk(req.addr, req.Len(), c.g.blockSize) then (false, Abort(Misaligned))
    else if !c.fsm.Idle? || c.pending.Some? then (false, Ok(c))
    else
      var inner := Input(false, [], random);
      var c1 := c.(pending := Some(Job(Client(client), req)), done := c.done - {client});
      match Tick(c1, inner)
      case Abort(p) => (true, Abort(p))
      case Ok(c2) => (true, Tick(c2, inner))
  }

  /** Neither inner tick calls the memory below: together they are the lookup of the new request. */
  lemma RegisterIsLookup(c: State, client: nat, req: Request, random: nat)
    requires Shapes(c) && AlignmentOk(req.addr, req.Len(), c.g.blockSize) && c.fsm.Idle? && c.pending.None?
    ensures var job := Job(Client(client), req);
            TryRegister(c, client, req, random) ==
              (true, LookupTick(c.(fsm := Lookup(job), done := c.done - {client}), job, random))
  {
    var job := Job(Client(client), req);
    var c1 := c.(pending := Some(job), done := c.done - {client});
    assert IdleTick(c1) == c.(fsm := Lookup(job), done := c.done - {client});
  }
}
