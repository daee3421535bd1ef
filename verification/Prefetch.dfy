/** What the next-line prefetcher puts into a run of the cache (prefetcher.rs): only whole blocks, except for the one
    suggestion it makes for the last block of the address space. */
module Prefetch {
  import opened Words
  import opened CacheConfig
  import opened Replacement
  import opened CacheSet
  import opened MemoryPort
  import opened Cache
  import opened CacheProof

  /** The base of a block, or the last address there is. */
  predicate Suggestion(addr: Word, blockSize: nat)
    requires blockSize > 0
  {
    addr % blockSize == 0 || addr == TWO_32 - 1
  }

  predicate SuggestionsOnly(queue: seq<Word>, blockSize: nat)
    requires blockSize > 0
  {
    forall i :: 0 <= i < |queue| ==> Suggestion(queue[i], blockSize)
  }

  predicate PrefetchJob(job: Option<Job>, blockSize: nat)
    requires blockSize > 0
  {
    job.Some? && job.value.owner.Synthetic? ==>
      && job.value.req.Load? && job.value.req.len == blockSize
      && Suggestion(job.value.req.addr, blockSize)
  }

  /** The queued prefetches and the one in the machine are such suggestions. */
  predicate PrefetchOk(c: State)
    requires c.g.blockSize > 0
  {
    SuggestionsOnly(c.prefetchQueue, c.g.blockSize) && PrefetchJob(c.pending, c.g.blockSize)
    && PrefetchJob(Current(c.(pending := None)), c.g.blockSize)
  }

  /** No block follows the one of `addr` in the address space. */
  predicate InLastBlock(addr: Word, blockSize: nat)
    requires blockSize > 0
  {
    (addr / blockSize + 1) * blockSize >= 0x1_0000_0000
  }

  /** The next-line prefetcher predicts one address: the base of the block after the one accessed, or, only in the last
      block, the last address there is. The null prefetcher predicts nothing. */
  lemma PredictsNextBlock(p: Prefetcher, addr: Word, blockSize: nat)
    requires blockSize > 0
    ensures p.NullPrefetcher? ==> Predict(p, addr, blockSize) == []
    ensures p.NextLinePrefetcher? ==>
              && |Predict(p, addr, blockSize)| == 1
              && var a := Predict(p, addr, blockSize)[0];
                 if InLastBlock(addr, blockSize) then a == 0xffff_ffff
                 else a % blockSize == 0 && a / blockSize == addr / blockSize + 1
    ensures SuggestionsOnly(Predict(p, addr, blockSize), blockSize)
  {
    var q := addr / blockSize;
    assert addr == blockSize * q + addr % blockSize;
    assert blockSize * q + blockSize == (q + 1) * blockSize;
    DivModUnique(addr - addr % blockSize + blockSize, blockSize, q + 1, 0);
  }

  lemma {:induction false} EnqueueAdds(queue: seq<Word>, addrs: seq<Word>)
    ensures forall a :: a in Enqueue(queue, addrs) <==> a in queue || a in addrs
    decreases |addrs|
  {
    if |addrs| > 0 {
      EnqueueAdds(if addrs[0] in queue then queue else queue + [addrs[0]], addrs[1..]);
      assert addrs == [addrs[0]] + addrs[1..];
    }
  }

  /** After a demand lookup, hit or miss, load or store, every predicted address is queued, with what was queued before
      and nothing else. */
  lemma DemandQueuesPrediction(c: State, job: Job, random: nat)
    requires Shapes(c) && !c.prefetching && c.g.blockSize > 0 && LookupTick(c, job, random).Ok?
    ensures forall a :: a in LookupTick(c, job, random).state.prefetchQueue <==>
                          a in c.prefetchQueue || a in Predict(c.prefetcher, job.req.addr, c.g.blockSize)
  {
    hide Tag, Index, Offset, BlockAddr, TagCompare, Promote, Predict, Enqueue, Shaped, Touch, WriteBlock, WriteBlockClean, Patch,
      WellFormed, Evict;
    EnqueueAdds(c.prefetchQueue, Predict(c.prefetcher, job.req.addr, c.g.blockSize));
  }

  /** So once a client's request under the next-line prefetcher has been accepted, the base of the block after its own
      is queued, unless its block is the last one. */
  lemma NextLineIsQueued(c: State, client: nat, req: Request, random: nat)
    requires Shapes(c) && !c.prefetching && c.g.blockSize > 0 && c.prefetcher.NextLinePrefetcher?
    requires TryRegister(c, client, req, random).0 && TryRegister(c, client, req, random).1.Ok?
    ensures !InLastBlock(req.addr, c.g.blockSize) ==>
              exists a: Word :: a in TryRegister(c, client, req, random).1.state.prefetchQueue
                                && a % c.g.blockSize == 0 && a / c.g.blockSize == req.addr / c.g.blockSize + 1
  {
    hide LookupTick, Predict, AlignmentOk, Shaped;
    RegisterIsLookup(c, client, req, random);
    var job := Job(Client(client), req);
    DemandQueuesPrediction(c.(fsm := Lookup(job), done := c.done - {client}), job, random);
    PredictsNextBlock(c.prefetcher, req.addr, c.g.blockSize);
    assert Predict(c.prefetcher, req.addr, c.g.blockSize)[0] in Predict(c.prefetcher, req.addr, c.g.blockSize);
  }

  lemma {:induction false} EnqueueKeeps(queue: seq<Word>, addrs: seq<Word>, blockSize: nat)
    requires blockSize > 0 && SuggestionsOnly(queue, blockSize) && SuggestionsOnly(addrs, blockSize)
    ensures SuggestionsOnly(Enqueue(queue, addrs), blockSize)
    decreases |addrs|
  {
    hide Suggestion;
    if |addrs| > 0 {
      EnqueueKeeps(if addrs[0] in queue then queue else queue + [addrs[0]], addrs[1..], blockSize);
    }
  }

  lemma LookupKeepsSuggestions(c: State, job: Job, random: nat)
    requires Shapes(c) && c.g.blockSize > 0 && PrefetchOk(c) && c.fsm == Lookup(job) && LookupTick(c, job, random).Ok?
    ensures LookupTick(c, job, random).state.g == c.g && PrefetchOk(LookupTick(c, job, random).state)
  {
    hide Suggestion, SuggestionsOnly, Tag, Index, Offset, BlockAddr, TagCompare, Promote, Predict, Enqueue, Shaped, Touch,
      WriteBlock, WriteBlockClean, Patch, WellFormed, Evict;
    PredictsNextBlock(c.prefetcher, job.req.addr, c.g.blockSize);
    EnqueueKeeps(c.prefetchQueue, Predict(c.prefetcher, job.req.addr, c.g.blockSize), c.g.blockSize);
  }

  /** Every tick keeps it. */
  lemma TickKeepsSuggestions(c: State, inp: Input)
    requires Shapes(c) && c.g.blockSize > 0 && PrefetchOk(c) && Tick(c, inp).Ok?
    ensures Tick(c, inp).state.g == c.g && PrefetchOk(Tick(c, inp).state)
  {
    hide LookupTick, Suggestion, InsertBlock, Shaped, Tag, Index, BlockAddr, SetAt, Pow2, Offset;
    if c.fsm.Lookup? {
      LookupKeepsSuggestions(c, c.fsm.job, inp.random);
    }
  }

  lemma RegisterKeepsSuggestions(c: State, client: nat, req: Request, random: nat)
    requires Shapes(c) && c.g.blockSize > 0 && PrefetchOk(c) && TryRegister(c, client, req, random).1.Ok?
    ensures var t := TryRegister(c, client, req, random).1.state;
            t.g == c.g && PrefetchOk(t)
  {
    hide LookupTick, Suggestion, Shaped, AlignmentOk;
    if AlignmentOk(req.addr, req.Len(), c.g.blockSize) && c.fsm.Idle? && c.pending.None? {
      RegisterIsLookup(c, client, req, random);
      var job := Job(Client(client), req);
      LookupKeepsSuggestions(c.(fsm := Lookup(job), done := c.done - {client}), job, random);
    }
  }

  /** The only prefetch that can run past its block is the one of the last address. */
  lemma OverrunIsLastAddress(c: State)
    requires Shapes(c) && c.g.blockSize > 0 && PrefetchOk(c) && PrefetchOverruns(c)
    ensures c.fsm.job.req.addr == TWO_32 - 1
  {
    SplitMeaning(c.g, c.fsm.job.req.addr);
    hide Pow2;
  }

  /** An idle cache with nothing registered starts the oldest queued prefetch, as a load of a whole block that no client
      has asked for. */
  lemma IdleStartsPrefetch(c: State, p: Port, inp: Input)
    requires Sane(c, p) && c.fsm.Idle? && |c.prefetchQueue| > 0
    ensures var r := Tick(c, inp);
            && r.Ok? && r.state.fsm == Lookup(Job(Synthetic, Load(c.prefetchQueue[0], c.g.blockSize)))
            && r.state.prefetchQueue == c.prefetchQueue[1..] && r.state.done == c.done
  {
    hide ThroughIsClean;
  }

  /** A new cache is the one that was asked for: under the next-line prefetcher its first request queues the next block. */
  lemma NewCachePrefetches(g: Geometry, kind: PolicyKind, policy: WritePolicy, penalty: nat, client: nat, req: Request,
                           random: nat)
    requires Sliceable(g) && g.ways >= 1
    requires Shapes(NewCache(g, kind, policy, NextLinePrefetcher, penalty))
    requires TryRegister(NewCache(g, kind, policy, NextLinePrefetcher, penalty), client, req, random).0
    requires TryRegister(NewCache(g, kind, policy, NextLinePrefetcher, penalty), client, req, random).1.Ok?
    ensures !InLastBlock(req.addr, g.blockSize) ==>
              var queue := TryRegister(NewCache(g, kind, policy, NextLinePrefetcher, penalty), client, req, random).1.state.prefetchQueue;
              exists a :: a in queue && a % g.blockSize == 0 && a / g.blockSize == req.addr / g.blockSize + 1
  {
    hide TryRegister, Shapes;
    NextLineIsQueued(NewCache(g, kind, policy, NextLinePrefetcher, penalty), client, req, random);
  }
}
