/** Write-back without write-allocate (general_cache/mod.rs), the one write policy under which the cache is not
    transparent. A store that misses in a full set makes the policy give up a victim (cache_set.rs) that is neither
    written back nor replaced; a later miss takes that way without looking at its dirty bit. When exactly a store is
    lost, in any run. */
module WriteBackNoAllocate {
  import opened Words
  import opened CacheConfig
  import opened Replacement
  import opened CacheSet
  import opened MemoryPort
  import opened CacheView
  import opened Cache
  import opened CacheProof
  import opened CachePort

  // ---------- Where the policy loses track ----------

  /** A lookup keeps the policy's count of the valid ways exactly when it is not such a store. Nothing is lost in this
      step yet. */
  lemma CountKeptIff(c: State, p: Port, job: Job, random: nat)
    requires Consistent(c, p) && c.fsm == Lookup(job) && LookupTick(c, job, random).Ok?
    ensures var r := LookupTick(c, job, random).state;
            Shapes(r) && (Tracks(r, p) <==> KeepsTrack(c)) && TickEffect(c, p, r, p)
  {
    LookupKeepsSane(c, p, job, random);
    if !KeepsTrack(c) {
      GivesUpVictim(c, p, job, random);
      var r := LookupTick(c, job, random).state;
      var index := Index(c.g, job.req.addr);
      var way := Evict(SetAt(c, job.req.addr).rp, random).value.way;
      assert r.sets[index].valid[way] && !r.sets[index].rp.valid[way];
      hide Sane, LookupTick, Index, Tag, Evict, KeepsTrack, TickEffect;
      assert !PolicyCounts(r);
    }
  }

  /** The store goes around the cache, and the victim keeps its block but not its place in the policy. */
  lemma GivesUpVictim(c: State, p: Port, job: Job, random: nat)
    requires Consistent(c, p) && c.fsm == Lookup(job) && !KeepsTrack(c)
    ensures var e, index, r := Evict(SetAt(c, job.req.addr).rp, random), Index(c.g, job.req.addr), LookupTick(c, job, random);
            && e.Some? && e.value.way < c.g.ways && index < |c.sets|
            && r.Ok? && r.state.fsm == WriteAround(Sending(job.req), job) && r.state.policy == c.policy
            && r.state.g == c.g && Shapes(r.state)
            && r.state.sets == c.sets[index := c.sets[index].(rp := e.value.policy)]
            && c.sets[index].valid[e.value.way]
            && e.value.policy.valid == c.sets[index].rp.valid[e.value.way := false]
  {
    hide Offset, BlockAddr, Tag, AllOk, FsmOk, Predict, Enqueue;
    var addr := job.req.addr;
    SplitMeaning(c.g, addr);
    EvictContract(SetAt(c, addr).rp, random);
    assert c.sets[Index(c.g, addr)].rp.valid[Evict(SetAt(c, addr).rp, random).value.way];
  }

  /** The way given up is the next miss's victim, taken without a write-back although its block is dirty. */
  lemma GivenUpWayIsTaken(s: SetState, tag: nat, way: nat, random: nat)
    requires Shaped(s) && way < s.ways && !s.rp.valid[way] && Find(s, tag).None?
    requires forall w :: 0 <= w < s.ways && w != way ==> s.rp.valid[w]
    ensures TagCompare(s, tag, random) == Miss(false, way, s.rp)
  {
    var first := FirstInvalid(s.rp.valid);
    assert !(way < first) && !(first < way);
  }

  // ---------- When a store is lost ----------

  /** The guard at the lookup: the miss takes the first way the policy does not count, and that way is dirty. */
  predicate TakesDirtyWay(c: State, addr: Word)
    requires Shapes(c)
  {
    var s := SetAt(c, addr);
    !AllValid(s.rp.valid) && s.dirty[FirstInvalid(s.rp.valid)]
  }

  lemma FirstOfSome(valid: seq<bool>)
    requires !AllValid(valid)
    ensures FirstInvalid(valid) < |valid|
  {}

  /** The block of that way is not the one below. */
  predicate NotBelow(c: State, p: Port, addr: Word)
    requires Shapes(c) && !AllValid(SetAt(c, addr).rp.valid)
  {
    var s := SetAt(c, addr);
    FirstOfSome(s.rp.valid);
    var way := FirstInvalid(s.rp.valid);
    !SameBytes(s.blocks[way], BlockAddr(c.g, s.tags[way], Index(c.g, addr)), p.view)
  }

  /** An allocation that starts at a lookup replaces something that is not below exactly when the guard holds and the
      dirty block differs from the one below. */
  lemma DecidedAtLookup(c: State, p: Port, job: Job, random: nat)
    requires Sane(c, p) && c.fsm == Lookup(job)
    requires LookupTick(c, job, random).Ok? && LookupTick(c, job, random).state.fsm.Allocate?
    ensures var c' := LookupTick(c, job, random).state;
            && Shapes(c') && FoundAt(c, job.req.addr).None?
            && (VictimIsCopy(c', p) <==> !(TakesDirtyWay(c, job.req.addr) && NotBelow(c, p, job.req.addr)))
  {
    SplitMeaning(c.g, job.req.addr);
    LookupKeepsSane(c, p, job, random);
    hide Tag, Index, Offset, BlockAddr, AllOk, FsmOk, SameBytes, Predict, Enqueue, Tracks, PrefetchFlag, NotDoneYet, TickEffect,
      ThroughIsClean, KeepsTrack;
    EvictContract(SetAt(c, job.req.addr).rp, random);
    VictimIsClean(c, p, SetAt(c, job.req.addr), Index(c.g, job.req.addr), random);
  }

  // ---------- Every run ----------

  /** The cache ticks, its memory below performs the outstanding request, or a client registers one. */
  datatype Move = Ticks(inp: Input) | Performs | Registers(client: nat, req: Request, random: nat)

  datatype Place = Place(c: State, p: Port)

  /** One move; None if the machine stops, or the answer is not one the memory below may give. */
  function Moves(s: Place, move: Move): Option<Place> {
    if !Shapes(s.c) then None
    else
      match move
      case Performs => Some(Place(s.c, Performed(s.p)))
      case Ticks(inp) =>
        (if !Legal(s.c, s.p, inp) then None
         else
           match Tick(s.c, inp)
           case Abort(_) => None
           case Ok(c) => Some(Place(c, Below(s.c, s.p, inp))))
      case Registers(client, req, random) =>
        (match TryRegister(s.c, client, req, random).1
         case Abort(_) => None
         case Ok(c) => Some(Place(c, s.p)))
  }

  function Run(s: Place, moves: seq<Move>): Option<Place> {
    if |moves| == 0 then Some(s)
    else
      match Run(s, moves[..|moves| - 1])
      case None => None
      case Some(t) => Moves(t, moves[|moves| - 1])
  }

  predicate RunSane(s: Place) {
    Sane(s.c, s.p) && s.c.g.blockSize >= 4
  }

  lemma GeometryStays(c: State, inp: Input)
    requires Shapes(c) && Tick(c, inp).Ok?
    ensures Tick(c, inp).state.g == c.g
  {
    hide TagCompare, Touch, WriteBlock, WriteBlockClean, InsertBlock, BlockAddr, Tag, Index, Offset, Shaped, WellFormed,
      Predict, Enqueue;
  }

  lemma RegisterKeepsSane(c: State, p: Port, client: nat, req: Request, random: nat)
    requires Sane(c, p) && c.g.blockSize >= 4 && TryRegister(c, client, req, random).1.Ok?
    ensures var c' := TryRegister(c, client, req, random).1.state;
            Sane(c', p) && c'.g == c.g
  {
    FsmOfSane(c, p);
    hide Sane, Presented, AlignmentOk, LookupTick, Tracks, TickEffect;
    if AlignmentOk(req.addr, req.Len(), c.g.blockSize) && c.fsm.Idle? {
      RegisterIsLookup(c, client, req, random);
      RegisteredSane(c, p, client, req);
      LookupKeepsSane(Registered(c, client, req), p, Job(Client(client), req), random);
      GeometryStays(Registered(c, client, req), Input(false, [], random));
    }
  }

  lemma MoveKeepsSane(s: Place, move: Move)
    requires RunSane(s) && Moves(s, move).Some?
    ensures RunSane(Moves(s, move).value)
  {
    hide Sane, Presented, Tick, TryRegister, Legal, Below, TickEffect, Loses, Tracks;
    match move {
      case Performs =>
        if s.p.slot.Busy? {
          PerformKeepsSane(s.c, s.p);
        }
      case Ticks(inp) =>
        TickKeepsSane(s.c, s.p, inp);
        GeometryStays(s.c, inp);
      case Registers(client, req, random) => RegisterKeepsSane(s.c, s.p, client, req, random);
    }
  }

  lemma {:induction false} RunKeepsSane(s: Place, moves: seq<Move>)
    requires RunSane(s) && Run(s, moves).Some?
    ensures RunSane(Run(s, moves).value)
  {
    hide RunSane, Moves;
    if |moves| > 0 {
      RunKeepsSane(s, moves[..|moves| - 1]);
      MoveKeepsSane(Run(s, moves[..|moves| - 1]).value, moves[|moves| - 1]);
    }
  }

  /** In any run of a new cache, under any write policy, over any memory: a tick does what its clients may see, if and
      only if it is not the end of an allocation that replaces something not below. */
  lemma TransparentIff(g: Geometry, kind: PolicyKind, policy: WritePolicy, prefetcher: Prefetcher, penalty: nat, m: Memory,
                       moves: seq<Move>, inp: Input)
    requires Sliceable(g) && g.ways >= 1 && g.blockSize >= 4
    requires var r := Run(Place(NewCache(g, kind, policy, prefetcher, penalty), Port(m, Free)), moves);
             && r.Some? && Shapes(r.value.c) && Legal(r.value.c, r.value.p, inp) && Tick(r.value.c, inp).Ok?
    ensures var s := Run(Place(NewCache(g, kind, policy, prefetcher, penalty), Port(m, Free)), moves).value;
            var c' := Tick(s.c, inp).state;
            && Shapes(c')
            && (TickEffect(s.c, s.p, c', Below(s.c, s.p, inp)) <==>
                  !(s.c.fsm.Allocate? && c'.fsm.MissPenalty? && !VictimIsCopy(s.c, s.p)))
  {
    var start := Place(NewCache(g, kind, policy, prefetcher, penalty), Port(m, Free));
    NewCachePresents(g, kind, policy, prefetcher, penalty, m);
    hide Run, TickEffect, Legal, Below, Tick, VictimIsCopy, AllOk, FsmOk, Tracks;
    RunKeepsSane(start, moves);
    var s := Run(start, moves).value;
    TickKeepsSane(s.c, s.p, inp);
  }

  // ---------- From the lookup to the loss ----------

  /** Moves during which the allocation goes on. */
  predicate Allocating(s: Place, moves: seq<Move>) {
    forall n :: 0 <= n <= |moves| ==> Run(s, moves[..n]).Some? && Run(s, moves[..n]).value.c.fsm.Allocate?
  }

  /** The one allocation replaces something that is not below if and only if the other does. */
  predicate AsDecided(s: Place, t: Place) {
    Shapes(s.c) && Shapes(t.c) && (VictimIsCopy(t.c, t.p) <==> VictimIsCopy(s.c, s.p))
  }

  lemma AllocationWaits(s: Place, move: Move)
    requires RunSane(s) && s.c.fsm.Allocate? && Moves(s, move).Some? && Moves(s, move).value.c.fsm.Allocate?
    ensures AsDecided(s, Moves(s, move).value)
  {
    MoveKeepsSane(s, move);
    hide Tag, Index, Offset, BlockAddr, AllOk, SameBytes, Presented, ThroughIsClean, PrefetchFlag, NotDoneYet, Tracks;
    if move.Ticks? {
      AllocateKeeps(s.c, s.p, move.inp);
    }
    hide AllocateTick;
  }

  /** Nothing that happens while the allocation goes on changes whether it replaces something that is not below. */
  lemma {:induction false} AllocationDecided(s: Place, moves: seq<Move>)
    requires RunSane(s) && Allocating(s, moves)
    ensures Run(s, moves).Some? && RunSane(Run(s, moves).value) && Run(s, moves).value.c.fsm.Allocate?
    ensures AsDecided(s, Run(s, moves).value)
  {
    assert moves[..|moves|] == moves;
    assert Shapes(s.c);
    hide RunSane, Moves, VictimIsCopy, Shapes;
    if |moves| > 0 {
      var before := moves[..|moves| - 1];
      forall n | 0 <= n <= |before|
        ensures Run(s, before[..n]).Some? && Run(s, before[..n]).value.c.fsm.Allocate?
      {
        assert before[..n] == moves[..n];
      }
      AllocationDecided(s, before);
      RunKeepsSane(s, moves);
      AllocationWaits(Run(s, before).value, moves[|moves| - 1]);
    }
  }

  /** When exactly a store is lost: an allocation that a lookup starts ends with a change of the presented memory if and
      only if at that lookup the policy had a way to spare, which was dirty, and whose block was not the one below. */
  lemma LossIff(s: Place, inp: Input, moves: seq<Move>, last: Input)
    requires RunSane(s) && s.c.fsm.Lookup? && Moves(s, Ticks(inp)).Some?
    requires Allocating(Moves(s, Ticks(inp)).value, moves)
    requires var t := Run(Moves(s, Ticks(inp)).value, moves);
             t.Some? && Moves(t.value, Ticks(last)).Some? && Moves(t.value, Ticks(last)).value.c.fsm.MissPenalty?
    ensures var t := Run(Moves(s, Ticks(inp)).value, moves).value;
            var u := Moves(t, Ticks(last)).value;
            && Shapes(t.c) && Shapes(u.c)
            && (Presented(u.c, u.p) == Presented(t.c, t.p) <==>
                  !(TakesDirtyWay(s.c, s.c.fsm.job.req.addr) && NotBelow(s.c, s.p, s.c.fsm.job.req.addr)))
  {
    var s1 := Moves(s, Ticks(inp)).value;
    assert moves[..0] == [];
    MoveKeepsSane(s, Ticks(inp));
    DecidedAtLookup(s.c, s.p, s.c.fsm.job, inp.random);
    hide RunSane, VictimIsCopy, TakesDirtyWay, NotBelow, Presented;
    AllocationDecided(s1, moves);
    var t := Run(s1, moves).value;
    LastTick(t, last);
  }

  lemma LastTick(t: Place, last: Input)
    requires RunSane(t) && t.c.fsm.Allocate? && Moves(t, Ticks(last)).Some? && Moves(t, Ticks(last)).value.c.fsm.MissPenalty?
    ensures var u := Moves(t, Ticks(last)).value;
            Shapes(t.c) && Shapes(u.c) && (Presented(u.c, u.p) == Presented(t.c, t.p) <==> VictimIsCopy(t.c, t.p))
  {
    MoveKeepsSane(t, Ticks(last));
    AllocateKeeps(t.c, t.p, last);
    hide AllocateTick, Presented, VictimIsCopy, AllOk, FsmOk, Tracks;
  }
}
