/** The cache is transparent: over any memory below that behaves as a port, its clients see one flat memory that only
    their own stores change. So it is for write-back with write-allocate and for both write-through policies; for
    write-back without it, except at the end of an allocation that replaces something not below. */
module CacheProof {
  import opened Words
  import opened CacheConfig
  import opened Replacement
  import opened CacheSet
  import opened MemoryPort
  import opened CacheView
  import opened Cache

  // ---------- The invariant ----------

  /** A client's request has passed the alignment check and lies in one block; the prefetcher only loads. */
  predicate JobOk(g: Geometry, job: Job)
    requires Sliceable(g)
  {
    match job.owner
    case Client(_) =>
      && AlignmentOk(job.req.addr, job.req.Len(), g.blockSize)
      && job.req.Len() >= 1 && Offset(g, job.req.addr) + job.req.Len() <= g.blockSize
    case Synthetic => job.req.Load?
  }

  /** The request below and the slot it uses. */
  predicate LowerOk(lower: Lower, slot: Slot) {
    && lower.req.InSpace()
    && match lower
       case Sending(_) => slot.Free?
       case Waiting(req) => slot == Busy(req) || (slot.Ready? && slot.req == req)
  }

  /** The store below has been performed. */
  predicate StoredBelow(p: Port) {
    p.slot.Ready?
  }

  function FoundAt(c: State, addr: Word): Option<nat>
    requires Shapes(c)
  {
    Find(SetAt(c, addr), Tag(c.g, addr))
  }

  predicate WriteBackOk(c: State, p: Port, lower: Lower, way: nat)
    requires Shapes(c)
  {
    && LowerOk(lower, p.slot)
    && c.backup.Some? && JobOk(c.g, c.backup.value)
    && FoundAt(c, c.backup.value.req.addr).None?
    && way < c.g.ways
    && var s, index := SetAt(c, c.backup.value.req.addr), Index(c.g, c.backup.value.req.addr);
       && s.valid[way] && s.dirty[way] && !s.rp.valid[way]
       && lower.req == Store(BlockAddr(c.g, s.tags[way], index), s.blocks[way])
       && (StoredBelow(p) ==> SameBytes(s.blocks[way], BlockAddr(c.g, s.tags[way], index), p.view))
  }

  predicate AllocateOk(c: State, p: Port, lower: Lower, way: nat)
    requires Shapes(c)
  {
    && LowerOk(lower, p.slot)
    && c.backup.Some? && JobOk(c.g, c.backup.value)
    && FoundAt(c, c.backup.value.req.addr).None?
    && way < c.g.ways
    && var addr := c.backup.value.req.addr;
       var s, base := SetAt(c, addr), BlockAddr(c.g, Tag(c.g, addr), Index(c.g, addr));
       && !s.rp.valid[way]
       && lower.req == Load(base, c.g.blockSize)
       && (p.slot.Ready? ==> |p.slot.data| == c.g.blockSize && SameBytes(p.slot.data, base, p.view))
  }

  predicate StoreBelowOk(c: State, p: Port, lower: Lower, caller: Job)
    requires Shapes(c)
  {
    LowerOk(lower, p.slot) && c.backup.None? && caller.req.Store? && caller.owner.Client? && JobOk(c.g, caller)
    && lower.req == caller.req
  }

  predicate FsmOk(c: State, p: Port)
    requires Shapes(c)
  {
    match c.fsm
    case Idle => p.slot.Free? && c.backup.None?
    case Lookup(job) => p.slot.Free? && c.backup.None? && JobOk(c.g, job)
    case WriteBack(lower, way) => c.policy.IsWriteBack() && WriteBackOk(c, p, lower, way)
    case Allocate(lower, way) => AllocateOk(c, p, lower, way)
    case MissPenalty(_) =>
      && p.slot.Free? && c.backup.Some? && JobOk(c.g, c.backup.value)
      && FoundAt(c, c.backup.value.req.addr).Some?
    case ThroughCommit(lower, caller) =>
      c.policy.IsWriteThrough() && StoreBelowOk(c, p, lower, caller) && FoundAt(c, caller.req.addr).Some?
    case WriteAround(lower, caller) =>
      c.policy.IsNoWriteAllocate() && StoreBelowOk(c, p, lower, caller) && FoundAt(c, caller.req.addr).None?
  }

  /** What clean blocks are copies of: the memory below, once the write-through store under way has reached it. */
  function Settled(c: State, p: Port): Memory {
    if c.fsm.ThroughCommit? && !StoredBelow(p) then Apply(p.view, c.fsm.caller.req) else p.view
  }

  /** The way being refilled, which the policy has given up already. */
  predicate InFlight(c: State, index: nat, way: nat)
    requires Shapes(c)
  {
    && (c.fsm.WriteBack? || c.fsm.Allocate?) && c.fsm.way == way
    && c.backup.Some? && Index(c.g, c.backup.value.req.addr) == index
  }

  /** The policy counts only valid ways, and under write-back and under write-allocate all of them but for the way
      being refilled. */
  predicate PolicyCounts(c: State)
    requires Shapes(c)
  {
    forall i, w :: 0 <= i < |c.sets| && 0 <= w < c.g.ways ==>
                     && (c.sets[i].rp.valid[w] ==> c.sets[i].valid[w])
                     && ((c.policy.IsWriteBack() || c.policy.IsWriteAllocate()) && !InFlight(c, i, w) ==>
                           c.sets[i].rp.valid[w] == c.sets[i].valid[w])
  }

  /** Under write-through nothing is ever dirty. */
  predicate ThroughIsClean(policy: WritePolicy, sets: seq<SetState>)
    requires forall i :: 0 <= i < |sets| ==> Shaped(sets[i])
  {
    policy.IsWriteThrough() ==> forall i :: 0 <= i < |sets| ==> NoneDirty(sets[i])
  }

  /** The job in the machine, if there is one. */
  function Current(c: State): Option<Job> {
    if c.pending.Some? then c.pending
    else
      match c.fsm
      case Idle => None
      case Lookup(job) => Some(job)
      case WriteBack(_, _) => c.backup
      case Allocate(_, _) => c.backup
      case MissPenalty(_) => c.backup
      case ThroughCommit(_, caller) => Some(caller)
      case WriteAround(_, caller) => Some(caller)
  }

  /** The prefetch flag is up exactly while the prefetcher's load is being served. */
  predicate PrefetchFlag(c: State) {
    c.prefetching <==> Current(c).Some? && Current(c).value.owner.Synthetic?
  }

  /** The client being served has not been told that its request is done. */
  predicate NotDoneYet(c: State) {
    Current(c).Some? && Current(c).value.owner.Client? ==> Current(c).value.owner.id !in c.done
  }

  /** What every tick keeps under every write policy. */
  predicate Sane(c: State, p: Port) {
    && Shapes(c) && c.pending.None?
    && AllOk(c.g, c.sets, Settled(c, p))
    && FsmOk(c, p)
    && ThroughIsClean(c.policy, c.sets)
    && PrefetchFlag(c)
    && NotDoneYet(c)
  }

  /** The way about to be refilled holds nothing, or a copy of what is below. */
  predicate VictimIsCopy(c: State, p: Port)
    requires Shapes(c)
  {
    c.fsm.Allocate? && c.backup.Some? ==>
      var addr, way := c.backup.value.req.addr, c.fsm.way;
      var s := SetAt(c, addr);
      s.valid[way] ==> SameBytes(s.blocks[way], BlockAddr(c.g, s.tags[way], Index(c.g, addr)), p.view)
  }

  /** The policy and the blocks agree, so that nothing is replaced that is not below as well. */
  predicate Tracks(c: State, p: Port) {
    Shapes(c) && PolicyCounts(c) && VictimIsCopy(c, p)
  }

  predicate Consistent(c: State, p: Port) {
    Sane(c, p) && Tracks(c, p)
  }

  /** Write-back without write-allocate drops a victim it does not replace: a store that misses in a full set makes
      the policy give up a way that keeps its block. Every other step keeps the two in agreement. */
  predicate KeepsTrack(c: State)
    requires Shapes(c)
  {
    c.policy.WriteBackNoWriteAllocate? && c.fsm.Lookup? && c.fsm.job.req.Store? && FoundAt(c, c.fsm.job.req.addr).None? ==>
      !AllValid(SetAt(c, c.fsm.job.req.addr).rp.valid)
  }

  /** A step keeps the one, and but for that case the other. */
  predicate Kept(c: State, p: Port, c': State, p': Port) {
    Sane(c', p') && (Tracks(c, p) && KeepsTrack(c) ==> Tracks(c', p'))
  }

  /** The memory the cache presents. */
  function Presented(c: State, p: Port): Memory
    requires Shapes(c)
  {
    View(c.g, c.sets, p.view)
  }

  // ---------- The memory below performs a request ----------

  /** The store that has not been acknowledged yet shows in the presented memory once this holds. */
  predicate Committed(c: State, p: Port) {
    c.fsm.ThroughCommit? || (c.fsm.WriteAround? && StoredBelow(p))
  }

  lemma TagHolders(s: SetState, tag: nat)
    requires Shaped(s) && Find(s, tag).None?
    ensures forall w :: 0 <= w < s.ways && s.valid[w] ==> s.tags[w] != tag
  {
    forall w | 0 <= w < s.ways && s.valid[w]
      ensures s.tags[w] != tag
    {
      assert !Holds(s, w, tag);
    }
  }

  /** A performed write-back is invisible, and makes the victim a copy. */
  lemma PerformWriteBack(c: State, p: Port)
    requires Sane(c, p) && c.fsm.WriteBack? && p.slot.Busy?
    ensures Kept(c, p, c, Performed(p))
    ensures Presented(c, Performed(p)) == Presented(c, p)
  {
    hide Tag, Index, Offset, BlockAddr, SetOk, PrefetchFlag, PolicyCounts, ThroughIsClean;
    var addr, way := c.backup.value.req.addr, c.fsm.way;
    SplitMeaning(c.g, addr);
    var index := Index(c.g, addr);
    var s := c.sets[index];
    assert SetOk(c.g, s, index, p.view);
    var base := BlockAddr(c.g, s.tags[way], index);
    VictimAddress(c.g, s, index, way, p.view);
    FindUnique(s, s.tags[way], way);
    DirtyHolders(c.g, s, index, way, p.view);
    BelowCachedInvisible(c.g, c.sets, p.view, base, s.blocks[way]);
    PatchKeepsAll(c.g, c.sets, base, s.blocks[way], p.view);
    assert s.blocks[way] == Patch(p.view, base, s.blocks[way])[base..base + c.g.blockSize];
  }

  lemma VictimAddress(g: Geometry, s: SetState, index: nat, way: nat, m: Memory)
    requires Sliceable(g) && Shaped(s) && s.ways == g.ways && s.blockSize == g.blockSize && SetOk(g, s, index, m)
    requires index < g.sets && way < g.ways && s.valid[way]
    ensures var base := BlockAddr(g, s.tags[way], index);
            && base + g.blockSize <= TWO_32
            && Tag(g, base) == s.tags[way] && Index(g, base) == index && Offset(g, base) == 0
    ensures DistinctTags(s) && Holds(s, way, s.tags[way])
  {
    hide Tag, Index, Offset, BlockAddr;
    BlockAddrMeaning(g, s.tags[way], index);
    JoinThenSplit(g, s.tags[way], index, 0);
  }

  lemma DirtyHolders(g: Geometry, s: SetState, index: nat, way: nat, m: Memory)
    requires Sliceable(g) && Shaped(s) && SetOk(g, s, index, m) && way < s.ways && s.valid[way] && s.dirty[way]
    ensures forall w :: 0 <= w < s.ways && s.valid[w] && s.tags[w] == s.tags[way] ==> s.dirty[w]
  {}

  lemma PerformAllocate(c: State, p: Port)
    requires Sane(c, p) && c.fsm.Allocate? && p.slot.Busy?
    ensures Kept(c, p, c, Performed(p))
    ensures Presented(c, Performed(p)) == Presented(c, p)
  {
    hide Tag, Index, Offset, BlockAddr, SetOk, PrefetchFlag, PolicyCounts, ThroughIsClean;
  }

  lemma PerformThrough(c: State, p: Port)
    requires Sane(c, p) && c.fsm.ThroughCommit? && p.slot.Busy?
    ensures Kept(c, p, c, Performed(p))
    ensures Presented(c, Performed(p)) == Presented(c, p)
  {
    hide Tag, Index, Offset, BlockAddr, SetOk, PrefetchFlag, PolicyCounts, ThroughIsClean;
    var req := c.fsm.caller.req;
    SplitMeaning(c.g, req.addr);
    BelowCachedInvisible(c.g, c.sets, p.view, req.addr, req.data);
  }

  lemma PerformAround(c: State, p: Port)
    requires Sane(c, p) && c.fsm.WriteAround? && p.slot.Busy?
    ensures Kept(c, p, c, Performed(p))
    ensures Presented(c, Performed(p)) == Apply(Presented(c, p), c.fsm.caller.req)
  {
    hide Tag, Index, Offset, BlockAddr, SetOk, PrefetchFlag, PolicyCounts, ThroughIsClean;
    var req := c.fsm.caller.req;
    SplitMeaning(c.g, req.addr);
    TagHolders(SetAt(c, req.addr), Tag(c.g, req.addr));
    BelowUncachedVisible(c.g, c.sets, p.view, req.addr, req.data);
    PatchKeepsAll(c.g, c.sets, req.addr, req.data, p.view);
  }

  /** When the memory below performs what the cache sent it, the presented memory stays the same, unless that was a
      store going around the cache: then it changes by exactly that store. */
  lemma PerformKeepsSane(c: State, p: Port)
    requires Sane(c, p) && p.slot.Busy?
    ensures Kept(c, p, c, Performed(p))
    ensures Presented(c, Performed(p)) ==
              if c.fsm.WriteAround? then Apply(Presented(c, p), c.fsm.caller.req) else Presented(c, p)
  {
    match c.fsm {
      case WriteBack(_, _) => PerformWriteBack(c, p);
      case Allocate(_, _) => PerformAllocate(c, p);
      case ThroughCommit(_, _) => PerformThrough(c, p);
      case WriteAround(_, _) => PerformAround(c, p);
      case _ =>
    }
  }

  // ---------- One tick ----------

  /** The answer is one the memory below may give: it accepts only with its slot free, and finishes only what it
      has performed, with the bytes it read. */
  predicate Legal(c: State, p: Port, inp: Input) {
    match LowerCall(c)
    case NoCall => true
    case Register(_) => inp.ok ==> p.slot.Free?
    case Poll(req) => inp.ok ==> p.slot.Ready? && p.slot.req == req && inp.data == p.slot.data
  }

  /** The port after the tick's call. */
  function Below(c: State, p: Port, inp: Input): Port {
    match LowerCall(c)
    case NoCall => p
    case Register(req) => if inp.ok then Port(p.view, Busy(req)) else p
    case Poll(_) => if inp.ok then Port(p.view, Free) else p
  }

  /** A tick in Lookup that hits completes a load with its bytes of the presented memory, and commits a store. */
  predicate HitEffect(c: State, p: Port, job: Job, c': State, p': Port)
    requires Shapes(c) && Shapes(c')
  {
    match job.req
    case Load(addr, len) =>
      && addr + len <= TWO_32
      && c'.done == Complete(c.done, job.owner, Presented(c, p)[addr..addr + len])
      && Presented(c', p') == Presented(c, p)
    case Store(_, _) =>
      && c'.done == (if c.policy.IsWriteThrough() then c.done else Complete(c.done, job.owner, []))
      && Presented(c', p') == Apply(Presented(c, p), job.req)
  }

  /** Everything a tick may do to the presented memory and to the finished requests. */
  predicate TickEffect(c: State, p: Port, c': State, p': Port)
    requires Shapes(c) && Shapes(c')
  {
    match c.fsm
    case Lookup(job) =>
      if FoundAt(c, job.req.addr).Some? then HitEffect(c, p, job, c', p')
      else c'.done == c.done && Presented(c', p') == Presented(c, p)
    case ThroughCommit(_, caller) =>
      && c'.done == (if c'.fsm.Idle? then Complete(c.done, caller.owner, []) else c.done)
      && (c'.fsm.Idle? ==> StoredBelow(p))
      && Presented(c', p') == Presented(c, p)
    case WriteAround(_, caller) =>
      && c'.done == (if c'.fsm.Idle? then Complete(c.done, caller.owner, []) else c.done)
      && (c'.fsm.Idle? ==> StoredBelow(p))
      && Presented(c', p') == Presented(c, p)
    case _ => c'.done == c.done && Presented(c', p') == Presented(c, p)
  }

  lemma IdleKeeps(c: State, p: Port)
    requires Sane(c, p) && c.fsm.Idle?
    ensures var c' := IdleTick(c);
            Kept(c, p, c', p) && c'.done == c.done && Presented(c', p) == Presented(c, p)
  {
    hide Tag, Index, Offset, BlockAddr, SetOk, ThroughIsClean;
  }

  /** The victim is written back: the way is a copy now, and its refill starts. */
  lemma RefillStarts(c: State, p: Port)
    requires Sane(c, p) && c.fsm.WriteBack? && StoredBelow(p)
    ensures var addr := c.backup.value.req.addr;
            var t := c.(fsm := Allocate(Sending(Load(BlockBase(c.g, addr), Pow2(c.g.offsetBits))), c.fsm.way));
            Kept(c, p, t, Port(p.view, Free)) && Presented(t, Port(p.view, Free)) == Presented(c, p)
  {
    var addr := c.backup.value.req.addr;
    SplitThenJoin(c.g, addr);
    BlockAddrMeaning(c.g, Tag(c.g, addr), Index(c.g, addr));
    hide Tag, Index, Offset, BlockAddr, SetOk, ThroughIsClean, SameBytes, Pow2;
  }

  lemma WriteBackKeeps(c: State, p: Port, inp: Input)
    requires Sane(c, p) && c.fsm.WriteBack? && Legal(c, p, inp)
    ensures var r := WriteBackTick(c, c.fsm.lower, c.fsm.way, inp.ok);
            && r.Ok? && Kept(c, p, r.state, Below(c, p, inp))
            && r.state.done == c.done && Presented(r.state, Below(c, p, inp)) == Presented(c, p)
  {
    hide Tag, Index, Offset, BlockAddr, SetOk, ThroughIsClean, SameBytes, Pow2;
    if c.fsm.lower.Waiting? && inp.ok {
      RefillStarts(c, p);
    }
  }

  /** The refill has arrived. It shows in the presented memory exactly when the way held something that is not below. */
  lemma FillKeepsSane(c: State, p: Port, inp: Input)
    requires Sane(c, p) && c.fsm.Allocate? && Legal(c, p, inp) && c.fsm.lower.Waiting? && inp.ok
    ensures var r := AllocateTick(c, c.fsm.lower, c.fsm.way, inp);
            && r.Ok? && Kept(c, p, r.state, Below(c, p, inp)) && r.state.done == c.done
            && r.state.fsm == MissPenalty(c.missPenalty)
            && (Presented(r.state, Below(c, p, inp)) == Presented(c, p) <==> VictimIsCopy(c, p))
  {
    hide Tag, Index, Offset, BlockAddr, SetOk, SameBytes;
    var addr, way := c.backup.value.req.addr, c.fsm.way;
    SplitThenJoin(c.g, addr);
    SplitMeaning(c.g, addr);
    var s := InsertBlock(SetAt(c, addr), way, Tag(c.g, addr), inp.data);
    InsertContract(SetAt(c, addr).rp, way);
    FillOk(c.g, c.sets, Index(c.g, addr), way, Tag(c.g, addr), inp.data, s, p.view);
    if VictimIsCopy(c, p) {
      FillInvisible(c.g, c.sets, Index(c.g, addr), way, Tag(c.g, addr), inp.data, s, p.view);
    } else {
      FillLoses(c.g, c.sets, Index(c.g, addr), way, Tag(c.g, addr), s, p.view);
    }
  }

  lemma AllocateKeeps(c: State, p: Port, inp: Input)
    requires Sane(c, p) && c.fsm.Allocate? && Legal(c, p, inp)
    ensures var r := AllocateTick(c, c.fsm.lower, c.fsm.way, inp);
            && r.Ok? && Kept(c, p, r.state, Below(c, p, inp)) && r.state.done == c.done
            && (if r.state.fsm.MissPenalty? then
                  Presented(r.state, Below(c, p, inp)) == Presented(c, p) <==> VictimIsCopy(c, p)
                else
                  && r.state.fsm.Allocate? && Presented(r.state, Below(c, p, inp)) == Presented(c, p)
                  && (VictimIsCopy(r.state, Below(c, p, inp)) <==> VictimIsCopy(c, p)))
  {
    if c.fsm.lower.Waiting? && inp.ok {
      FillKeepsSane(c, p, inp);
    } else {
      hide Tag, Index, Offset, BlockAddr, SetOk, SameBytes, ThroughIsClean;
    }
  }

  // ---------- Lookup ----------

  /** After a lookup only the prefetcher's fields differ. */
  lemma AfterLookupKeeps(c: State, before: State, p: Port, addr: Word, hit: bool)
    requires before.g.blockSize > 0
    requires Shapes(c) && c.pending.None? && AllOk(c.g, c.sets, Settled(c, p)) && FsmOk(c, p)
    requires ThroughIsClean(c.policy, c.sets) && c.prefetching == before.prefetching
    requires before.prefetching ==> (Current(c).None? <==> hit) && (Current(c).Some? ==> Current(c).value.owner.Synthetic?)
    requires !before.prefetching ==> (Current(c).Some? ==> Current(c).value.owner.Client?)
    requires NotDoneYet(c)
    ensures var c' := AfterLookup(c, before, addr, hit);
            Sane(c', p) && (Tracks(c, p) ==> Tracks(c', p)) && c'.done == c.done && Presented(c', p) == Presented(c, p) && c'.fsm == c.fsm
  {
    hide Tag, Index, Offset, BlockAddr, SetOk, ThroughIsClean, Predict, Enqueue, AllOk, SetsShaped;
    var c' := AfterLookup(c, before, addr, hit);
    assert Shapes(c');
    assert FsmOk(c', p);
  }

  /** A hit moves no bit that the policy counts by. */
  lemma HitTracks(c: State, p: Port, r: State, index: nat, s: SetState)
    requires Shapes(c) && Shapes(r) && c.fsm.Lookup? && (r.fsm.Idle? || r.fsm.ThroughCommit?)
    requires r.policy == c.policy && r.g == c.g && index < |c.sets| && r.sets == c.sets[index := s]
    requires s.valid == c.sets[index].valid && s.rp.valid == c.sets[index].rp.valid
    ensures Tracks(c, p) ==> Tracks(r, p)
  {
    hide Index, Shaped, Sliceable, SetAt;
  }

  lemma HitLoadKeeps(c: State, p: Port, job: Job, way: nat, random: nat)
    requires Sane(c, p) && c.fsm == Lookup(job) && FoundAt(c, job.req.addr) == Some(way) && job.req.Load?
    requires Offset(c.g, job.req.addr) + job.req.len <= c.g.blockSize
    ensures var r := LookupTick(c, job, random);
            r.Ok? && Kept(c, p, r.state, p) && HitEffect(c, p, job, r.state, p)
  {
    hide Tag, Index, Offset, BlockAddr, SetOk, Promote, AfterLookup, PolicyCounts;
    var addr := job.req.addr;
    SplitMeaning(c.g, addr);
    var o := SetAt(c, addr);
    PromoteContract(o.rp, way);
    var s := Touch(o, way);
    PolicyInvisible(c.g, c.sets, Index(c.g, addr), s, p.view, p.view);
    HitReadsView(c.g, c.sets, p.view, addr, job.req.len, way);
    var r := HitTick(c, job, way).state;
    assert Shapes(r);
    HitTracks(c, p, r, Index(c.g, addr), s);
    AfterLookupKeeps(r, c, p, addr, true);
  }

  /** A store into a block that becomes dirty: nothing below has to follow. */
  lemma DirtyStoreOk(g: Geometry, sets: seq<SetState>, index: nat, way: nat, block: seq<Byte>, s: SetState, m: Memory)
    requires AllOk(g, sets, m) && index < |sets| && way < g.ways && sets[index].valid[way] && |block| == g.blockSize
    requires Shaped(s)
    requires var o := sets[index];
             s == o.(blocks := o.blocks[way := block], dirty := o.dirty[way := true], rp := s.rp)
    ensures AllOk(g, sets[index := s], m)
  {
    hide Tag, Index, Offset, BlockAddr, SameBytes;
    assert SetOk(g, s, index, m);
  }

  /** A store into a clean block, which stays a copy of the memory the store is on its way to. */
  lemma CleanStoreOk(g: Geometry, sets: seq<SetState>, addr: Word, data: seq<Byte>, way: nat, s: SetState, m: Memory)
    requires AllOk(g, sets, m) && Offset(g, addr) + |data| <= g.blockSize
    requires Index(g, addr) < g.sets && Find(sets[Index(g, addr)], Tag(g, addr)) == Some(way)
    requires !sets[Index(g, addr)].dirty[way]
    requires Shaped(s)
    requires var o := sets[Index(g, addr)];
             s == o.(blocks := o.blocks[way := Patch(o.blocks[way], Offset(g, addr), data)], rp := s.rp)
    ensures AllOk(g, sets[Index(g, addr) := s], Patch(m, addr, data))
  {
    hide Tag, Index, Offset, BlockAddr, SameBytes;
    var index := Index(g, addr);
    var o, m', sets' := sets[index], Patch(m, addr, data), sets[index := s];
    assert SetOk(g, s, index, m') by {
      OwnBlockFollows(g, addr, data, o.blocks[way], m);
      forall w | 0 <= w < s.ways && s.valid[w] && !s.dirty[w] && w != way
        ensures SameBytes(s.blocks[w], BlockAddr(g, s.tags[w], index), m')
      {
        OtherBlocksKept(g, addr, data, s.tags[w], index, s.blocks[w], m);
      }
    }
    forall i | 0 <= i < |sets'|
      ensures SetOk(g, sets'[i], i, m')
    {
      if i != index {
        PatchKeepsOthers(g, sets[i], i, addr, data, m);
      }
    }
  }

  lemma DirtyStoreKeeps(c: State, p: Port, job: Job, way: nat, random: nat)
    requires Sane(c, p) && c.fsm == Lookup(job) && FoundAt(c, job.req.addr) == Some(way) && job.req.Store?
    requires c.policy.IsWriteBack()
    ensures var r := LookupTick(c, job, random);
            r.Ok? && Kept(c, p, r.state, p) && HitEffect(c, p, job, r.state, p)
  {
    hide Tag, Index, Offset, BlockAddr, SetOk, Promote, AfterLookup, SameBytes, PolicyCounts;
    var addr, data := job.req.addr, job.req.data;
    SplitMeaning(c.g, addr);
    var o := SetAt(c, addr);
    PromoteContract(o.rp, way);
    var t := Touch(o, way);
    PromoteContract(t.rp, way);
    var block := Patch(o.blocks[way], Offset(c.g, addr), data);
    var s := WriteBlock(t, way, block);
    assert s == o.(blocks := o.blocks[way := block], dirty := o.dirty[way := true], rp := s.rp);
    DirtyStoreOk(c.g, c.sets, Index(c.g, addr), way, block, s, p.view);
    assert SetOk(c.g, o, Index(c.g, addr), p.view);
    Distinct(c.g, o, Index(c.g, addr), p.view);
    HitStoresView(c.g, c.sets, p.view, addr, data, way, s);
    var r := HitTick(c, job, way).state;
    assert Shapes(r);
    HitTracks(c, p, r, Index(c.g, addr), s);
    AfterLookupKeeps(r, c, p, addr, true);
  }

  lemma Distinct(g: Geometry, s: SetState, index: nat, m: Memory)
    requires Sliceable(g) && Shaped(s) && SetOk(g, s, index, m)
    ensures DistinctTags(s)
  {}

  lemma ThroughStoreKeeps(c: State, p: Port, job: Job, way: nat, random: nat)
    requires Sane(c, p) && c.fsm == Lookup(job) && FoundAt(c, job.req.addr) == Some(way) && job.req.Store?
    requires c.policy.IsWriteThrough()
    ensures var r := LookupTick(c, job, random);
            r.Ok? && Kept(c, p, r.state, p) && HitEffect(c, p, job, r.state, p)
  {
    hide Tag, Index, Offset, BlockAddr, SetOk, Promote, AfterLookup, SameBytes, PolicyCounts;
    var addr, data := job.req.addr, job.req.data;
    SplitMeaning(c.g, addr);
    SplitThenJoin(c.g, addr);
    var o := SetAt(c, addr);
    PromoteContract(o.rp, way);
    var t := Touch(o, way);
    PromoteContract(t.rp, way);
    var block := Patch(o.blocks[way], Offset(c.g, addr), data);
    var s := WriteBlockClean(t, way, block);
    assert s == o.(blocks := o.blocks[way := block], rp := s.rp);
    CleanStoreOk(c.g, c.sets, addr, data, way, s, p.view);
    Distinct(c.g, o, Index(c.g, addr), p.view);
    HitStoresView(c.g, c.sets, p.view, addr, data, way, s);
    var r := HitTick(c, job, way).state;
    assert Shapes(r);
    HitTracks(c, p, r, Index(c.g, addr), s);
    FindSame(o, s, Tag(c.g, addr));
    BlockEnds(c.g, addr, |data|);
    AfterLookupKeeps(r, c, p, addr, true);
  }

  lemma BlockEnds(g: Geometry, addr: Word, len: nat)
    requires Sliceable(g) && Offset(g, addr) + len <= g.blockSize
    ensures addr + len <= TWO_32
  {
    if len > 0 {
      Neighbours(g, addr, len - 1);
    }
  }

  // ---------- Lookup that misses ----------

  /** Under the supported policies a victim that is not written back holds nothing, or a copy of what is below. */
  lemma VictimIsClean(c: State, p: Port, s: SetState, index: nat, random: nat)
    requires Sane(c, p) && c.fsm.Lookup? && index < |c.sets| && s == c.sets[index]
    requires Evict(s.rp, random).Some?
    ensures var e := Evict(s.rp, random).value;
            && e.way < c.g.ways
            && (s.dirty[e.way] ==> s.valid[e.way] && c.policy.IsWriteBack())
            && (Tracks(c, p) && s.dirty[e.way] ==> e.full)
            && (s.valid[e.way] && !s.dirty[e.way] ==>
                  SameBytes(s.blocks[e.way], BlockAddr(c.g, s.tags[e.way], index), p.view))
  {
    hide Tag, Index, Offset, BlockAddr, SameBytes;
    EvictContract(s.rp, random);
    assert SetOk(c.g, s, index, p.view);
  }

  /** What a miss knows of the victim chosen. */
  predicate VictimChosen(c: State, p: Port, index: nat, e: Eviction)
    requires Shapes(c) && index < |c.sets|
  {
    var s := c.sets[index];
    && e.way < c.g.ways && |e.policy.valid| == c.g.ways && WellFormed(e.policy)
    && !e.policy.valid[e.way]
    && (forall w :: 0 <= w < c.g.ways && w != e.way ==> e.policy.valid[w] == s.rp.valid[w])
    && (s.dirty[e.way] ==> s.valid[e.way] && c.policy.IsWriteBack())
    && (Tracks(c, p) && s.dirty[e.way] ==> e.full)
    && (e.full == AllValid(s.rp.valid)) && (!e.full ==> e.policy == s.rp)
    && (s.valid[e.way] && !s.dirty[e.way] ==>
          SameBytes(s.blocks[e.way], BlockAddr(c.g, s.tags[e.way], index), p.view))
  }

  lemma EvictChooses(c: State, p: Port, index: nat, random: nat)
    requires Sane(c, p) && c.fsm.Lookup? && index < |c.sets|
    ensures Evict(c.sets[index].rp, random).Some?
    ensures VictimChosen(c, p, index, Evict(c.sets[index].rp, random).value)
  {
    hide Tag, Index, Offset, BlockAddr, SameBytes, SetOk, Evict, FsmOk;
    EvictContract(c.sets[index].rp, random);
    VictimIsClean(c, p, c.sets[index], index, random);
    NotFull(c.sets[index].rp, random);
  }

  /** A policy with a way to spare gives none up. */
  lemma NotFull(p: Policy, random: nat)
    requires WellFormed(p)
    ensures Evict(p, random).Some? && !Evict(p, random).value.full ==> Evict(p, random).value.policy == p
  {}

  lemma AroundStarts(c: State, p: Port, job: Job, e: Eviction)
    requires Sane(c, p) && c.fsm == Lookup(job) && FoundAt(c, job.req.addr).None?
    requires Index(c.g, job.req.addr) < |c.sets| && VictimChosen(c, p, Index(c.g, job.req.addr), e)
    requires job.req.Store? && c.policy.IsNoWriteAllocate()
    ensures var r := MissTick(c, job, e.full && SetAt(c, job.req.addr).dirty[e.way], e.way, e.policy);
            && r.Ok? && r.state.done == c.done && Presented(r.state, p) == Presented(c, p)
            && Kept(c, p, AfterLookup(r.state, c, job.req.addr, false), p)
            && Presented(AfterLookup(r.state, c, job.req.addr, false), p) == Presented(c, p)
            && AfterLookup(r.state, c, job.req.addr, false).done == c.done
  {
    hide Tag, Index, Offset, BlockAddr, SetOk, AfterLookup, SameBytes, Pow2;
    var addr := job.req.addr;
    var o := SetAt(c, addr);
    var s := o.(rp := e.policy);
    PolicyInvisible(c.g, c.sets, Index(c.g, addr), s, p.view, p.view);
    FindSame(o, s, Tag(c.g, addr));
    BlockEnds(c.g, addr, |job.req.data|);
    var r := MissTick(c, job, e.full && o.dirty[e.way], e.way, e.policy).state;
    assert Shapes(r);
    AfterLookupKeeps(r, c, p, addr, false);
  }

  /** Choosing a victim takes it out of the count, and it is one that may be replaced. */
  lemma RefillTracks(c: State, p: Port, r: State, index: nat, s: SetState, e: Eviction)
    requires Sane(c, p) && c.fsm.Lookup? && index < |c.sets| && VictimChosen(c, p, index, e)
    requires Shapes(r) && r.policy == c.policy && r.g == c.g && r.sets == c.sets[index := s]
    requires s == c.sets[index].(rp := s.rp) && s.rp.valid == e.policy.valid
    requires r.backup.Some? && Index(c.g, r.backup.value.req.addr) == index
    requires (r.fsm.WriteBack? || r.fsm.Allocate?) && r.fsm.way == e.way
    requires r.fsm.Allocate? ==> !(e.full && s.dirty[e.way])
    ensures Tracks(c, p) ==> Tracks(r, p)
  {
    hide Index, Tag, Offset, BlockAddr, Shaped, Sliceable, SameBytes, SetOk, FsmOk, PrefetchFlag, NotDoneYet;
  }

  lemma WriteBackStarts(c: State, p: Port, job: Job, e: Eviction)
    requires Sane(c, p) && c.fsm == Lookup(job) && FoundAt(c, job.req.addr).None?
    requires Index(c.g, job.req.addr) < |c.sets| && VictimChosen(c, p, Index(c.g, job.req.addr), e)
    requires !(job.req.Store? && c.policy.IsNoWriteAllocate())
    requires e.full && SetAt(c, job.req.addr).dirty[e.way]
    ensures var r := MissTick(c, job, true, e.way, e.policy);
            && r.Ok? && r.state.done == c.done && Presented(r.state, p) == Presented(c, p)
            && Kept(c, p, AfterLookup(r.state, c, job.req.addr, false), p)
            && Presented(AfterLookup(r.state, c, job.req.addr, false), p) == Presented(c, p)
            && AfterLookup(r.state, c, job.req.addr, false).done == c.done
  {
    hide Tag, Index, Offset, BlockAddr, SetOk, AfterLookup, SameBytes, Pow2, Promote, Tracks;
    var addr := job.req.addr;
    var o := SetAt(c, addr);
    PromoteContract(e.policy, e.way);
    var s := Touch(o.(rp := e.policy), e.way);
    PolicyInvisible(c.g, c.sets, Index(c.g, addr), s, p.view, p.view);
    FindSame(o, s, Tag(c.g, addr));
    VictimAddress(c.g, o, Index(c.g, addr), e.way, p.view);
    var r := MissTick(c, job, true, e.way, e.policy).state;
    assert Shapes(r);
    RefillTracks(c, p, r, Index(c.g, addr), s, e);
    AfterLookupKeeps(r, c, p, addr, false);
  }

  lemma AllocateStarts(c: State, p: Port, job: Job, e: Eviction)
    requires Sane(c, p) && c.fsm == Lookup(job) && FoundAt(c, job.req.addr).None?
    requires Index(c.g, job.req.addr) < |c.sets| && VictimChosen(c, p, Index(c.g, job.req.addr), e)
    requires !(job.req.Store? && c.policy.IsNoWriteAllocate())
    requires !(e.full && SetAt(c, job.req.addr).dirty[e.way])
    ensures var r := MissTick(c, job, false, e.way, e.policy);
            && r.Ok? && r.state.done == c.done && Presented(r.state, p) == Presented(c, p)
            && Kept(c, p, AfterLookup(r.state, c, job.req.addr, false), p)
            && Presented(AfterLookup(r.state, c, job.req.addr, false), p) == Presented(c, p)
            && AfterLookup(r.state, c, job.req.addr, false).done == c.done
  {
    var addr := job.req.addr;
    SplitThenJoin(c.g, addr);
    BlockAddrMeaning(c.g, Tag(c.g, addr), Index(c.g, addr));
    hide Tag, Index, Offset, BlockAddr, SetOk, AfterLookup, SameBytes, Pow2, Tracks;
    var o := SetAt(c, addr);
    var s := o.(rp := e.policy);
    PolicyInvisible(c.g, c.sets, Index(c.g, addr), s, p.view, p.view);
    FindSame(o, s, Tag(c.g, addr));
    var r := MissTick(c, job, false, e.way, e.policy).state;
    assert Shapes(r);
    RefillTracks(c, p, r, Index(c.g, addr), s, e);
    AfterLookupKeeps(r, c, p, addr, false);
  }

  lemma MissKeeps(c: State, p: Port, job: Job, random: nat)
    requires Sane(c, p) && c.fsm == Lookup(job) && FoundAt(c, job.req.addr).None?
    ensures var r := LookupTick(c, job, random);
            r.Ok? && Kept(c, p, r.state, p) && r.state.done == c.done && Presented(r.state, p) == Presented(c, p)
  {
    SplitMeaning(c.g, job.req.addr);
    var index := Index(c.g, job.req.addr);
    hide Tag, Index, Offset, BlockAddr, Sane, Tracks, MissTick, AfterLookup, Evict, Presented;
    EvictChooses(c, p, index, random);
    var e := Evict(c.sets[index].rp, random).value;
    if job.req.Store? && c.policy.IsNoWriteAllocate() {
      AroundStarts(c, p, job, e);
    } else if e.full && c.sets[index].dirty[e.way] {
      WriteBackStarts(c, p, job, e);
    } else {
      AllocateStarts(c, p, job, e);
    }
  }

  // ---------- Every tick ----------

  lemma PenaltyKeeps(c: State, p: Port, inp: Input)
    requires Sane(c, p) && c.fsm.MissPenalty?
    ensures var r := Tick(c, inp);
            && r.Ok? && Kept(c, p, r.state, p) && r.state.done == c.done && Presented(r.state, p) == Presented(c, p)
            && (c.fsm.cycles == 0 ==> r.state.fsm.Lookup? && FoundAt(r.state, r.state.fsm.job.req.addr).Some?)
  {
    hide Tag, Index, Offset, BlockAddr, AllOk, ThroughIsClean, View, WriteBackOk, AllocateOk, StoreBelowOk, Shaped;
  }

  lemma AckKeeps(c: State, p: Port, inp: Input)
    requires Sane(c, p) && (c.fsm.ThroughCommit? || c.fsm.WriteAround?) && Legal(c, p, inp)
    ensures var r := Tick(c, inp);
            && r.Ok? && Kept(c, p, r.state, Below(c, p, inp))
            && TickEffect(c, p, r.state, Below(c, p, inp))
  {
    hide Tag, Index, Offset, BlockAddr, SetOk, ThroughIsClean;
  }

  /** A prefetch whose block runs past the end of the address space, the one request that is not checked. */
  predicate PrefetchOverruns(c: State)
    requires Sliceable(c.g)
  {
    && c.fsm.Lookup? && c.fsm.job.owner.Synthetic?
    && Offset(c.g, c.fsm.job.req.addr) + c.fsm.job.req.Len() > c.g.blockSize
  }

  lemma LookupKeepsSane(c: State, p: Port, job: Job, random: nat)
    requires Sane(c, p) && c.fsm == Lookup(job)
    ensures match LookupTick(c, job, random)
            case Abort(panic) => panic == BlockOverrun && PrefetchOverruns(c)
            case Ok(c') => Kept(c, p, c', p) && TickEffect(c, p, c', p)
  {
    FsmOfSane(c, p);
    hide Tag, Index, Offset, BlockAddr, SetOk, Sane, Tracks, MissTick, AfterLookup, Evict, Presented;
    var found := FoundAt(c, job.req.addr);
    if found.None? {
      MissKeeps(c, p, job, random);
    } else {
      if Offset(c.g, job.req.addr) + job.req.Len() <= c.g.blockSize {
        if job.req.Load? {
          HitLoadKeeps(c, p, job, found.value, random);
        } else if c.policy.IsWriteThrough() {
          ThroughStoreKeeps(c, p, job, found.value, random);
        } else {
          DirtyStoreKeeps(c, p, job, found.value, random);
        }
      }
    }
  }

  lemma FsmOfSane(c: State, p: Port)
    requires Sane(c, p)
    ensures Shapes(c) && FsmOk(c, p) && NotDoneYet(c) && PrefetchFlag(c) && c.pending.None?
  {}

  /** This tick ends an allocation over a way that holds something that is not below. */
  predicate Loses(c: State, p: Port, c': State)
    requires Shapes(c)
  {
    c.fsm.Allocate? && c'.fsm.MissPenalty? && !VictimIsCopy(c, p)
  }

  /** One tick under any of the four write policies, whatever the memory below answers: a completed load carries its
      bytes of the presented memory, and the presented memory changes only in the tick that commits a store, by
      exactly that store, if and only if the tick is not the end of an allocation that loses something. */
  lemma TickKeepsSane(c: State, p: Port, inp: Input)
    requires Sane(c, p) && Legal(c, p, inp)
    ensures match Tick(c, inp)
            case Abort(panic) => panic == BlockOverrun && PrefetchOverruns(c)
            case Ok(c') =>
              && Kept(c, p, c', Below(c, p, inp))
              && (TickEffect(c, p, c', Below(c, p, inp)) <==> !Loses(c, p, c'))
  {
    match c.fsm {
      case Idle => IdleKeeps(c, p);
      case Lookup(job) => LookupKeepsSane(c, p, job, inp.random);
      case WriteBack(_, _) => WriteBackKeeps(c, p, inp);
      case Allocate(_, _) => AllocateKeeps(c, p, inp);
      case MissPenalty(_) => PenaltyKeeps(c, p, inp);
      case ThroughCommit(_, _) => AckKeeps(c, p, inp);
      case WriteAround(_, _) => AckKeeps(c, p, inp);
    }
    hide Kept, LookupTick, WriteBackTick, AllocateTick, IdleTick, Presented, FoundAt, VictimIsCopy;
  }

  // ---------- While the policy and the blocks agree ----------

  lemma PerformKeepsConsistent(c: State, p: Port)
    requires Consistent(c, p) && p.slot.Busy?
    ensures Consistent(c, Performed(p))
    ensures Presented(c, Performed(p)) ==
              if c.fsm.WriteAround? then Apply(Presented(c, p), c.fsm.caller.req) else Presented(c, p)
  {
    hide Sane, Tracks, Presented;
    PerformKeepsSane(c, p);
    NotLookingUp(c, p);
  }

  lemma NotLookingUp(c: State, p: Port)
    requires Sane(c, p) && p.slot.Busy?
    ensures Shapes(c) && KeepsTrack(c)
  {}

  /** The refill has arrived: it replaces nothing but a copy. */
  lemma FillKeeps(c: State, p: Port, inp: Input)
    requires Consistent(c, p) && c.fsm.Allocate? && Legal(c, p, inp) && c.fsm.lower.Waiting? && inp.ok
    ensures var r := AllocateTick(c, c.fsm.lower, c.fsm.way, inp);
            && r.Ok? && Consistent(r.state, Below(c, p, inp))
            && r.state.done == c.done && Presented(r.state, Below(c, p, inp)) == Presented(c, p)
  {
    hide Sane, PolicyCounts, VictimIsCopy, Presented, AllocateTick, Legal, Below;
    FillKeepsSane(c, p, inp);
  }

  lemma LookupKeepsConsistent(c: State, p: Port, job: Job, random: nat)
    requires Consistent(c, p) && c.fsm == Lookup(job) && KeepsTrack(c)
    ensures match LookupTick(c, job, random)
            case Abort(panic) => panic == BlockOverrun && PrefetchOverruns(c)
            case Ok(c') => Consistent(c', p) && TickEffect(c, p, c', p)
  {
    hide Sane, Tracks, LookupTick, TickEffect, KeepsTrack, PrefetchOverruns;
    LookupKeepsSane(c, p, job, random);
  }

  /** Cache transparency, one tick: whatever the memory below answers, the invariant is kept, a completed load
      carries its bytes of the presented memory, and the presented memory changes only in the tick that commits a
      store, by exactly that store. */
  lemma TickKeepsConsistent(c: State, p: Port, inp: Input)
    requires Consistent(c, p) && Legal(c, p, inp) && KeepsTrack(c)
    ensures match Tick(c, inp)
            case Abort(panic) => panic == BlockOverrun && PrefetchOverruns(c)
            case Ok(c') => Consistent(c', Below(c, p, inp)) && TickEffect(c, p, c', Below(c, p, inp))
  {
    hide Sane, PolicyCounts, VictimIsCopy, Tick, TickEffect, KeepsTrack, PrefetchOverruns, Legal, Below;
    TickKeepsSane(c, p, inp);
  }

  // ---------- The policies for which no step is excluded ----------

  predicate Supported(policy: WritePolicy) {
    !policy.WriteBackNoWriteAllocate?
  }

  predicate Invariant(c: State, p: Port) {
    Consistent(c, p) && Supported(c.policy)
  }

  lemma FsmOfInvariant(c: State, p: Port)
    requires Invariant(c, p)
    ensures Shapes(c) && FsmOk(c, p) && NotDoneYet(c) && PrefetchFlag(c) && c.pending.None? && KeepsTrack(c)
  {}

  lemma PerformKeeps(c: State, p: Port)
    requires Invariant(c, p) && p.slot.Busy?
    ensures Invariant(c, Performed(p))
    ensures Presented(c, Performed(p)) ==
              if c.fsm.WriteAround? then Apply(Presented(c, p), c.fsm.caller.req) else Presented(c, p)
  {
    hide Consistent, Presented;
    PerformKeepsConsistent(c, p);
  }

  lemma PolicyStays(c: State, inp: Input)
    requires Shapes(c) && Tick(c, inp).Ok?
    ensures Tick(c, inp).state.policy == c.policy
  {
    hide TagCompare, Touch, WriteBlock, WriteBlockClean, InsertBlock, BlockAddr, Tag, Index, Offset, Shaped, WellFormed,
      Predict, Enqueue;
  }

  lemma LookupKeeps(c: State, p: Port, job: Job, random: nat)
    requires Invariant(c, p) && c.fsm == Lookup(job)
    ensures match LookupTick(c, job, random)
            case Abort(panic) => panic == BlockOverrun && PrefetchOverruns(c)
            case Ok(c') => Invariant(c', p) && TickEffect(c, p, c', p)
  {
    FsmOfInvariant(c, p);
    LookupKeepsConsistent(c, p, job, random);
    assert Tick(c, Input(false, [], random)) == LookupTick(c, job, random);
    if LookupTick(c, job, random).Ok? {
      PolicyStays(c, Input(false, [], random));
    }
    hide Consistent, LookupTick, TickEffect, PrefetchOverruns;
  }

  lemma TickKeeps(c: State, p: Port, inp: Input)
    requires Invariant(c, p) && Legal(c, p, inp)
    ensures match Tick(c, inp)
            case Abort(panic) => panic == BlockOverrun && PrefetchOverruns(c)
            case Ok(c') => Invariant(c', Below(c, p, inp)) && TickEffect(c, p, c', Below(c, p, inp))
  {
    FsmOfInvariant(c, p);
    TickKeepsConsistent(c, p, inp);
    if Tick(c, inp).Ok? {
      PolicyStays(c, inp);
    }
    hide Consistent, Tick, TickEffect, PrefetchOverruns;
  }

  /** A fresh cache presents the memory below. */
  lemma NewCachePresents(g: Geometry, kind: PolicyKind, policy: WritePolicy, prefetcher: Prefetcher, penalty: nat, m: Memory)
    requires Sliceable(g) && g.ways >= 1
    ensures var c, p := NewCache(g, kind, policy, prefetcher, penalty), Port(m, Free);
            Consistent(c, p) && Presented(c, p) == m
  {
    hide Tag, Index, Offset, BlockAddr;
    var c, p := NewCache(g, kind, policy, prefetcher, penalty), Port(m, Free);
    NewPolicyOk(kind, g.ways);
    forall a | 0 <= a < TWO_32
      ensures ByteAt(g, c.sets, m, a) == m[a]
    {
      SplitMeaning(g, a);
    }
  }
}
