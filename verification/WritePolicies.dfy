/** The four write policies (write_policy.rs), each by its name: what becomes of a store that hits and of one that
    misses (general_cache/mod.rs). */
module WritePolicies {
  import opened Words
  import opened CacheConfig
  import opened Replacement
  import opened CacheSet
  import opened MemoryPort
  import opened CacheView
  import opened Cache
  import opened CacheProof
  import opened CachePort
  import opened WriteBackNoAllocate

  predicate WritesBack(p: WritePolicy) {
    p.WriteBackWriteAllocate? || p.WriteBackNoWriteAllocate?
  }

  predicate WritesThrough(p: WritePolicy) {
    p.WriteThroughWriteAllocate? || p.WriteThroughNoWriteAllocate?
  }

  predicate Allocates(p: WritePolicy) {
    p.WriteBackWriteAllocate? || p.WriteThroughWriteAllocate?
  }

  predicate GoesAround(p: WritePolicy) {
    p.WriteBackNoWriteAllocate? || p.WriteThroughNoWriteAllocate?
  }

  /** An idle cache to which a client offers a store that passes the check. */
  predicate OffersStore(c: State, p: Port, req: Request) {
    Sane(c, p) && c.fsm.Idle? && c.g.blockSize >= 4 && req.Store? && AlignmentOk(req.addr, req.Len(), c.g.blockSize)
  }

  /** The block of way `way` after the store, in the set of its address; every other set and way as before. */
  predicate BlockStored(c: State, way: nat, req: Request, c': State)
    requires Shapes(c) && Shapes(c') && req.Store? && way < c.g.ways
  {
    var index := Index(c.g, req.addr);
    && index < |c.sets| && c'.g == c.g
    && (forall i :: 0 <= i < |c.sets| && i != index ==> c'.sets[i] == c.sets[i])
    && c'.sets[index].blocks == c.sets[index].blocks[way := Patch(c.sets[index].blocks[way], Offset(c.g, req.addr), req.data)]
    && c'.sets[index].tags == c.sets[index].tags && c'.sets[index].valid == c.sets[index].valid
  }

  // ---------- Stores that hit ----------

  lemma RegisteredLookup(c: State, p: Port, client: nat, req: Request, random: nat)
    requires OffersStore(c, p, req)
    ensures TryRegister(c, client, req, random) ==
              (true, LookupTick(Registered(c, client, req), Job(Client(client), req), random))
    ensures Sane(Registered(c, client, req), p) && JobOk(c.g, Job(Client(client), req))
  {
    FsmOfSane(c, p);
    RegisteredSane(c, p, client, req);
    hide LookupTick, AlignmentOk, Sane, Tracks;
    RegisterIsLookup(c, client, req, random);
    FsmOfSane(Registered(c, client, req), p);
  }

  /** A client's store is looked up and its block is there. */
  predicate StoreFound(c: State, p: Port, job: Job, way: nat) {
    Sane(c, p) && c.fsm == Lookup(job) && job.owner.Client? && job.req.Store? && FoundAt(c, job.req.addr) == Some(way)
  }

  /** Write-back: a store that hits is done at once, asks nothing of the memory below, and leaves its way dirty. */
  lemma WriteBackLookup(c: State, p: Port, job: Job, random: nat, way: nat)
    requires StoreFound(c, p, job, way) && WritesBack(c.policy)
    ensures var r := LookupTick(c, job, random);
            && r.Ok? && Shapes(c) && Shapes(r.state) && way < c.g.ways
            && r.state.done == c.done[job.owner.id := []] && r.state.fsm.Idle? && LowerCall(r.state).NoCall?
            && BlockStored(c, way, job.req, r.state)
            && SetAt(r.state, job.req.addr).dirty == SetAt(c, job.req.addr).dirty[way := true]
  {
    hide Tag, Index, Offset, BlockAddr, Promote, AlignmentOk, Predict, Enqueue;
    SplitMeaning(c.g, job.req.addr);
    LookupKeepsSane(c, p, job, random);
    FsmOfSane(c, p);
    PromoteContract(SetAt(c, job.req.addr).rp, way);
    hide Sane, Tracks;
  }

  /** Write-through: it starts being sent below, is not done, and leaves its way as clean as all others. */
  lemma WriteThroughLookup(c: State, p: Port, job: Job, random: nat, way: nat)
    requires StoreFound(c, p, job, way) && WritesThrough(c.policy)
    ensures var r := LookupTick(c, job, random);
            && r.Ok? && Shapes(c) && Shapes(r.state) && way < c.g.ways
            && r.state.done == c.done && job.owner.id !in c.done
            && r.state.fsm == ThroughCommit(Sending(job.req), job) && LowerCall(r.state) == Register(job.req)
            && BlockStored(c, way, job.req, r.state)
            && SetAt(r.state, job.req.addr).dirty == SetAt(c, job.req.addr).dirty && !SetAt(c, job.req.addr).dirty[way]
  {
    hide Tag, Index, Offset, BlockAddr, Promote, AlignmentOk, Predict, Enqueue;
    SplitMeaning(c.g, job.req.addr);
    LookupKeepsSane(c, p, job, random);
    FsmOfSane(c, p);
    PromoteContract(SetAt(c, job.req.addr).rp, way);
    NothingDirty(c, p, Index(c.g, job.req.addr), way);
    hide Sane, Tracks;
  }

  lemma NothingDirty(c: State, p: Port, index: nat, way: nat)
    requires Sane(c, p) && WritesThrough(c.policy) && index < |c.sets| && way < c.g.ways
    ensures way < |c.sets[index].dirty| && !c.sets[index].dirty[way]
  {
    hide FsmOk, AllOk;
  }

  lemma SameFound(c: State, client: nat, req: Request)
    requires Shapes(c)
    ensures Shapes(Registered(c, client, req))
    ensures FoundAt(Registered(c, client, req), req.addr) == FoundAt(c, req.addr)
  {}

  /** The same from registration: a store that hits a write-back cache is done when its registration returns. */
  lemma WriteBackHit(c: State, p: Port, client: nat, req: Request, random: nat, way: nat)
    requires OffersStore(c, p, req) && WritesBack(c.policy) && FoundAt(c, req.addr) == Some(way)
    ensures var (accepted, r) := TryRegister(c, client, req, random);
            && accepted && r.Ok? && Shapes(r.state) && way < c.g.ways
            && client in r.state.done && r.state.fsm.Idle? && LowerCall(r.state).NoCall?
            && BlockStored(c, way, req, r.state)
            && SetAt(r.state, req.addr).dirty == SetAt(c, req.addr).dirty[way := true]
  {
    RegisteredLookup(c, p, client, req, random);
    SameFound(c, client, req);
    hide Sane, TryRegister, LookupTick, AlignmentOk, FoundAt;
    WriteBackLookup(Registered(c, client, req), p, Job(Client(client), req), random, way);
  }

  /** A store that hits a write-through cache is not. */
  lemma WriteThroughHit(c: State, p: Port, client: nat, req: Request, random: nat, way: nat)
    requires OffersStore(c, p, req) && WritesThrough(c.policy) && FoundAt(c, req.addr) == Some(way)
    ensures var (accepted, r) := TryRegister(c, client, req, random);
            && accepted && r.Ok? && Shapes(r.state) && way < c.g.ways
            && client !in r.state.done && Committing(r.state, Job(Client(client), req)) && LowerCall(r.state) == Register(req)
            && BlockStored(c, way, req, r.state)
            && SetAt(r.state, req.addr).dirty == SetAt(c, req.addr).dirty && !SetAt(c, req.addr).dirty[way]
  {
    RegisteredLookup(c, p, client, req, random);
    SameFound(c, client, req);
    hide Sane, TryRegister, LookupTick, AlignmentOk, FoundAt;
    WriteThroughLookup(Registered(c, client, req), p, Job(Client(client), req), random, way);
  }

  // ---------- Stores that miss ----------

  /** No block, tag, valid bit or dirty bit differs. */
  predicate SameBlocks(c: State, c': State) {
    && |c'.sets| == |c.sets|
    && forall i :: 0 <= i < |c.sets| ==> c'.sets[i] == c.sets[i].(rp := c'.sets[i].rp)
  }

  /** The store of `job` is being sent below, as a write-through commit or around the cache. */
  predicate Committing(c: State, job: Job) {
    (c.fsm.ThroughCommit? || c.fsm.WriteAround?) && c.fsm.caller == job && c.fsm.lower.req == job.req
  }

  lemma AroundLookup(c: State, p: Port, job: Job, random: nat)
    requires Sane(c, p) && c.fsm == Lookup(job) && job.req.Store? && FoundAt(c, job.req.addr).None? && GoesAround(c.policy)
    ensures var r := LookupTick(c, job, random);
            && r.Ok? && r.state.done == c.done && r.state.fsm == WriteAround(Sending(job.req), job) && SameBlocks(c, r.state)
  {
    SplitMeaning(c.g, job.req.addr);
    EvictContract(SetAt(c, job.req.addr).rp, random);
    hide AllOk, Evict, Tag, Index, Offset, BlockAddr, Predict, Enqueue, WellFormed, FsmOk, Find, PrefetchFlag, NotDoneYet,
      ThroughIsClean;
  }

  lemma AllocatingLookup(c: State, p: Port, job: Job, random: nat)
    requires Sane(c, p) && c.fsm == Lookup(job) && job.req.Store? && FoundAt(c, job.req.addr).None? && Allocates(c.policy)
    ensures var r := LookupTick(c, job, random);
            r.Ok? && r.state.done == c.done && Refilling(r.state, job) && SameBlocks(c, r.state)
  {
    hide Sane, Evict, Promote, Tag, Index, Offset, BlockAddr, Predict, Enqueue, WellFormed, Find, Kept, Presented, FsmOk;
    FsmOfSane(c, p);
    SplitMeaning(c.g, job.req.addr);
    MissKeeps(c, p, job, random);
    EvictContract(SetAt(c, job.req.addr).rp, random);
  }

  /** No-write-allocate: a store that misses goes around the cache and changes no block, tag, valid or dirty bit. */
  lemma AroundMiss(c: State, p: Port, client: nat, req: Request, random: nat)
    requires OffersStore(c, p, req) && GoesAround(c.policy) && FoundAt(c, req.addr).None?
    ensures var (accepted, r) := TryRegister(c, client, req, random);
            && accepted && r.Ok? && client !in r.state.done
            && r.state.fsm.WriteAround? && Committing(r.state, Job(Client(client), req)) && LowerCall(r.state) == Register(req)
            && SameBlocks(c, r.state)
  {
    RegisteredLookup(c, p, client, req, random);
    SameFound(c, client, req);
    hide Sane, TryRegister, LookupTick, AlignmentOk, FoundAt;
    AroundLookup(Registered(c, client, req), p, Job(Client(client), req), random);
  }

  /** Write-allocate: a store that misses starts a refill, after a write-back if need be; no block has changed yet. */
  lemma AllocatingMiss(c: State, p: Port, client: nat, req: Request, random: nat)
    requires OffersStore(c, p, req) && Allocates(c.policy) && FoundAt(c, req.addr).None?
    ensures var (accepted, r) := TryRegister(c, client, req, random);
            && accepted && r.Ok? && client !in r.state.done
            && Refilling(r.state, Job(Client(client), req)) && SameBlocks(c, r.state)
  {
    RegisteredLookup(c, p, client, req, random);
    SameFound(c, client, req);
    hide Sane, TryRegister, LookupTick, AlignmentOk, FoundAt;
    AllocatingLookup(Registered(c, client, req), p, Job(Client(client), req), random);
  }

  /** The block of `job` is being fetched. */
  predicate Refilling(c: State, job: Job) {
    (c.fsm.WriteBack? || c.fsm.Allocate? || c.fsm.MissPenalty?) && c.backup == Some(job)
  }

  /** Its lookup finds the block. */
  predicate FindsBlock(c: State, job: Job) {
    Shapes(c) && c.fsm == Lookup(job) && FoundAt(c, job.req.addr).Some?
  }

  lemma RefillMoves(s: Place, job: Job, move: Move)
    requires RunSane(s) && Refilling(s.c, job) && Moves(s, move).Some?
    ensures Refilling(Moves(s, move).value.c, job) || FindsBlock(Moves(s, move).value.c, job)
  {
    if move.Ticks? && s.c.fsm.MissPenalty? {
      PenaltyKeeps(s.c, s.p, move.inp);
      MoveKeepsSane(s, move);
    }
    hide Sane, LookupTick, SetAt, FoundAt, Legal, Below, AlignmentOk, Tracks, BlockBase, Tag, Pow2, InsertBlock;
  }

  /** Such a store ends as a hit in the refilled way: in every run its refill either goes on, or its lookup has found the
      block, to which the two statements about stores that hit apply. */
  lemma {:induction false} RefillEndsInHit(s: Place, job: Job, moves: seq<Move>)
    requires RunSane(s) && Refilling(s.c, job) && Run(s, moves).Some?
    ensures Refilling(Run(s, moves).value.c, job)
            || exists n :: 0 <= n <= |moves| && Run(s, moves[..n]).Some? && FindsBlock(Run(s, moves[..n]).value.c, job)
  {
    hide RunSane, Moves, Refilling, FindsBlock;
    if |moves| > 0 {
      var before := moves[..|moves| - 1];
      RefillEndsInHit(s, job, before);
      RunKeepsSane(s, before);
      if Refilling(Run(s, before).value.c, job) {
        RefillMoves(Run(s, before).value, job, moves[|moves| - 1]);
        assert moves[..|moves|] == moves;
      } else {
        var n :| 0 <= n <= |before| && Run(s, before[..n]).Some? && FindsBlock(Run(s, before[..n]).value.c, job);
        assert before[..n] == moves[..n];
      }
    }
  }

  // ---------- When a store below is done ----------

  /** The memory below has performed the store. */
  predicate PerformedBelow(s: Place, job: Job) {
    Committing(s.c, job) && s.p.slot.Ready? && s.p.slot.req == job.req
  }

  lemma CommitMoves(s: Place, job: Job, client: nat, move: Move)
    requires RunSane(s) && Committing(s.c, job) && client !in s.c.done && Moves(s, move).Some?
    ensures var t := Moves(s, move).value;
            || PerformedBelow(s, job)
            || (Committing(t.c, job) && client !in t.c.done && t.c.sets == s.c.sets)
  {
    hide Sane, LookupTick, SetAt, FoundAt, AlignmentOk, Tracks, Shapes;
  }

  /** A store sent below is done only once the memory below has performed that same store, and until then no set
      changes. */
  lemma {:induction false} DoneMeansPerformedBelow(s: Place, job: Job, client: nat, moves: seq<Move>)
    requires RunSane(s) && Committing(s.c, job) && client !in s.c.done && Run(s, moves).Some?
    ensures var t := Run(s, moves).value;
            || (client !in t.c.done && t.c.sets == s.c.sets)
            || exists n :: 0 <= n < |moves| && Run(s, moves[..n]).Some? && PerformedBelow(Run(s, moves[..n]).value, job)
  {
    if !StillCommitting(s, job, client, moves) {
      hide Run, PerformedBelow;
      CommitRuns(s, job, client, moves);
    }
  }

  predicate StillCommitting(s: Place, job: Job, client: nat, moves: seq<Move>) {
    && Run(s, moves).Some?
    && var t := Run(s, moves).value; Committing(t.c, job) && client !in t.c.done && t.c.sets == s.c.sets
  }

  lemma {:induction false} CommitRuns(s: Place, job: Job, client: nat, moves: seq<Move>)
    requires RunSane(s) && Committing(s.c, job) && client !in s.c.done && Run(s, moves).Some?
    ensures StillCommitting(s, job, client, moves)
            || exists n :: 0 <= n < |moves| && Run(s, moves[..n]).Some? && PerformedBelow(Run(s, moves[..n]).value, job)
  {
    hide RunSane, Moves, Committing, PerformedBelow;
    if |moves| > 0 {
      var before := moves[..|moves| - 1];
      CommitRuns(s, job, client, before);
      RunKeepsSane(s, before);
      if StillCommitting(s, job, client, before) {
        CommitMoves(Run(s, before).value, job, client, moves[|moves| - 1]);
        assert moves[..|moves| - 1] == before;
      } else {
        var n :| 0 <= n < |before| && Run(s, before[..n]).Some? && PerformedBelow(Run(s, before[..n]).value, job);
        assert before[..n] == moves[..n];
      }
    }
  }
}
