/** Runs of one cache (general_cache/mod.rs), of any configuration and write policy, over any answers from below: what
    a run does to the replacement policy of each set, and what follows for FIFO. */
module CacheRuns {
  import opened Words
  import opened CacheConfig
  import R = Replacement
  import opened CacheSet
  import opened FifoAge
  import opened MemoryPort
  import opened Cache

  // ---------- Runs ----------

  datatype Action = Ticks(inp: Input) | Registers(client: nat, req: Request, random: nat)

  function Act(c: State, a: Action): Outcome
    requires Shapes(c)
  {
    match a
    case Ticks(inp) => Tick(c, inp)
    case Registers(client, req, random) => TryRegister(c, client, req, random).1
  }

  /** The way being replaced is one the policy has given up, from the lookup that chose it to its refill. */
  predicate Reserved(c: State)
    requires Shapes(c)
  {
    (c.fsm.WriteBack? || c.fsm.Allocate?) && c.backup.Some? ==>
      !SetAt(c, c.backup.value.req.addr).rp.valid[c.fsm.way]
  }

  predicate Sound(c: State) {
    Shapes(c) && c.pending.None? && Reserved(c)
  }

  function Run(c: State, actions: seq<Action>): Option<State> {
    if |actions| == 0 then Some(c)
    else
      match Run(c, actions[..|actions| - 1])
      case None => None
      case Some(c') =>
        if !Shapes(c') then None
        else
          match Act(c', actions[|actions| - 1])
          case Abort(_) => None
          case Ok(c'') => Some(c'')
  }

  // ---------- What an action does to the policy of a set ----------

  function LookupOps(c: State, job: Job, random: nat): seq<Operation>
    requires Shapes(c)
  {
    match TagCompare(SetAt(c, job.req.addr), Tag(c.g, job.req.addr), random)
    case EmptyQueue => []
    case Hit(way) => if job.req.Load? then [Promoting(way)] else [Promoting(way), Promoting(way)]
    case Miss(writeBack, victim, _) =>
      if writeBack && !(job.req.Store? && c.policy.IsNoWriteAllocate()) then [Evicting(random), Promoting(victim)]
      else [Evicting(random)]
  }

  function PolicyOps(c: State, a: Action, i: nat): seq<Operation>
    requires Shapes(c)
  {
    match a
    case Ticks(inp) =>
      if c.fsm.Lookup? && Index(c.g, c.fsm.job.req.addr) == i then LookupOps(c, c.fsm.job, inp.random)
      else Refill(c, Act(c, a), i)
    case Registers(client, req, random) =>
      if TryRegister(c, client, req, random).0 && Index(c.g, req.addr) == i then
        LookupOps(c, Job(Client(client), req), random)
      else []
  }

  /** The way of set `i` that this action refills: the machine goes from the allocation to the miss penalty. */
  function RefilledWay(c: State, r: Outcome, i: nat): Option<nat>
    requires Sliceable(c.g)
  {
    if r.Ok? && r.state.fsm.MissPenalty? && c.fsm.Allocate? && c.backup.Some? && Index(c.g, c.backup.value.req.addr) == i then
      Some(c.fsm.way)
    else None
  }

  function Refill(c: State, r: Outcome, i: nat): seq<Operation>
    requires Sliceable(c.g)
  {
    match RefilledWay(c, r, i)
    case None => []
    case Some(way) => [Inserting(way)]
  }

  lemma PlayNone(p: R.Policy)
    requires R.WellFormed(p)
    ensures Play(p, []) == Some(p)
  {}

  lemma PlayOne(p: R.Policy, o: Operation)
    requires R.WellFormed(p) && Allowed(p, o)
    ensures Play(p, [o]) == Some(Perform(p, o))
  {
    assert [o][..0] == [];
    hide Perform, Allowed, R.WellFormed;
  }

  lemma PlayTwo(p: R.Policy, o: Operation, o': Operation)
    requires R.WellFormed(p) && Allowed(p, o) && Allowed(Perform(p, o), o')
    ensures Play(p, [o, o']) == Some(Perform(Perform(p, o), o'))
  {
    hide Perform, Allowed, R.WellFormed;
    PlayOne(p, o);
    assert [o, o'][..1] == [o];
  }

  /** From one state to the next, the policy of set `i` has performed `ops`. */
  predicate Moved(c: State, ops: seq<Operation>, c': State, i: nat)
    requires Shapes(c) && i < |c.sets|
  {
    && Sound(c') && c'.g == c.g && |c'.sets| == |c.sets|
    && Play(c.sets[i].rp, ops) == Some(c'.sets[i].rp)
  }

  /** One set is replaced by another of the same shape. */
  lemma OneSetMoves(c: State, c': State, index: nat, s: SetState, ops: seq<Operation>, i: nat)
    requires Shapes(c) && index < |c.sets| && i < |c.sets| && c'.sets == c.sets[index := s]
    requires Play(c.sets[index].rp, ops) == Some(s.rp)
    ensures Play(c.sets[i].rp, if i == index then ops else []) == Some(c'.sets[i].rp)
  {
    PlayNone(c.sets[i].rp);
    hide Play;
  }

  // ---------- Lookups ----------

  lemma HitMoves(c: State, job: Job, way: nat)
    requires Sound(c) && way < c.g.ways && HitTick(c, job, way).Ok?
    requires Index(c.g, job.req.addr) < |c.sets|
    ensures var c', index := HitTick(c, job, way).state, Index(c.g, job.req.addr);
            var ops := if job.req.Load? then [Promoting(way)] else [Promoting(way), Promoting(way)];
            && Sound(c') && c'.g == c.g && |c'.sets| == |c.sets|
            && c'.sets == c.sets[index := c'.sets[index]]
            && Play(c.sets[index].rp, ops) == Some(c'.sets[index].rp)
  {
    hide Offset, Tag, Index, BlockAddr, Patch, R.Promote, Play, R.WellFormed;
    var rp := SetAt(c, job.req.addr).rp;
    R.PromoteContract(rp, way);
    R.PromoteContract(R.Promote(rp, way), way);
    PlayOne(rp, Promoting(way));
    PlayTwo(rp, Promoting(way), Promoting(way));
  }

  lemma MissMoves(c: State, job: Job, random: nat, e: R.Eviction)
    requires Sound(c) && Index(c.g, job.req.addr) < |c.sets|
    requires R.Evict(SetAt(c, job.req.addr).rp, random) == Some(e)
    requires e.way < c.g.ways && |e.policy.valid| == c.g.ways && R.WellFormed(e.policy) && !e.policy.valid[e.way]
    requires var writeBack := e.full && SetAt(c, job.req.addr).dirty[e.way];
             MissTick(c, job, writeBack, e.way, e.policy).Ok?
    ensures var writeBack := e.full && SetAt(c, job.req.addr).dirty[e.way];
            var c', index := MissTick(c, job, writeBack, e.way, e.policy).state, Index(c.g, job.req.addr);
            var ops := if writeBack && !(job.req.Store? && c.policy.IsNoWriteAllocate()) then [Evicting(random), Promoting(e.way)]
                       else [Evicting(random)];
            && Sound(c') && c'.g == c.g && |c'.sets| == |c.sets|
            && c'.sets == c.sets[index := c'.sets[index]]
            && Play(c.sets[index].rp, ops) == Some(c'.sets[index].rp)
  {
    hide Offset, Tag, Index, BlockAddr, R.Promote, Play, R.WellFormed, R.Evict, Pow2;
    var rp := SetAt(c, job.req.addr).rp;
    R.PromoteContract(e.policy, e.way);
    PlayOne(rp, Evicting(random));
    PlayTwo(rp, Evicting(random), Promoting(e.way));
  }

  lemma AfterLookupSound(c: State, before: State, addr: Word, hit: bool)
    requires Sound(c) && before.g.blockSize > 0
    ensures var c' := AfterLookup(c, before, addr, hit);
            Sound(c') && c'.sets == c.sets && c'.g == c.g && c'.fsm == c.fsm
  {
    hide Predict, Enqueue;
  }

  lemma LookupMoves(c: State, job: Job, random: nat, i: nat)
    requires Sound(c) && i < |c.sets| && LookupTick(c, job, random).Ok?
    ensures var c' := LookupTick(c, job, random).state;
            && Moved(c, if Index(c.g, job.req.addr) == i then LookupOps(c, job, random) else [], c', i)
            && !c'.fsm.MissPenalty?
  {
    SplitMeaning(c.g, job.req.addr);
    var s, index := SetAt(c, job.req.addr), Index(c.g, job.req.addr);
    var ops := LookupOps(c, job, random);
    R.EvictContract(s.rp, random);
    hide Sound, HitTick, MissTick, AfterLookup, R.Evict, Find, Shaped, R.WellFormed, Index, Tag, Sliceable;
    match TagCompare(s, Tag(c.g, job.req.addr), random) {
      case Hit(way) =>
        HitMoves(c, job, way);
        var c' := HitTick(c, job, way).state;
        AfterLookupSound(c', c, job.req.addr, true);
        OneSetMoves(c, c', index, c'.sets[index], ops, i);
        HitFsm(c, job, way);
      case Miss(writeBack, victim, rp) =>
        MissMoves(c, job, random, R.Evict(s.rp, random).value);
        var c' := MissTick(c, job, writeBack, victim, rp).state;
        AfterLookupSound(c', c, job.req.addr, false);
        OneSetMoves(c, c', index, c'.sets[index], ops, i);
        MissFsm(c, job, writeBack, victim, rp);
    }
  }

  lemma HitFsm(c: State, job: Job, way: nat)
    requires Shapes(c) && way < c.g.ways && HitTick(c, job, way).Ok?
    ensures !HitTick(c, job, way).state.fsm.MissPenalty?
  {}

  lemma MissFsm(c: State, job: Job, writeBack: bool, victim: nat, rp: R.Policy)
    requires Shapes(c) && victim < c.g.ways && |rp.valid| == c.g.ways && R.WellFormed(rp)
    requires MissTick(c, job, writeBack, victim, rp).Ok?
    ensures !MissTick(c, job, writeBack, victim, rp).state.fsm.MissPenalty?
  {}

  // ---------- Every action ----------

  lemma RefillMoves(c: State, lower: Lower, way: nat, inp: Input, i: nat)
    requires Sound(c) && c.fsm == Allocate(lower, way) && i < |c.sets| && AllocateTick(c, lower, way, inp).Ok?
    ensures var r := AllocateTick(c, lower, way, inp);
            Moved(c, Refill(c, r, i), r.state, i)
  {
    hide Tag, Index, Offset, BlockAddr, Play, R.Insert, R.WellFormed;
    PlayNone(c.sets[i].rp);
    if c.backup.Some? {
      SplitMeaning(c.g, c.backup.value.req.addr);
      var rp := SetAt(c, c.backup.value.req.addr).rp;
      R.InsertContract(rp, way);
      PlayOne(rp, Inserting(way));
    }
  }

  lemma OtherTickMoves(c: State, inp: Input, i: nat)
    requires Sound(c) && !c.fsm.Lookup? && !c.fsm.Allocate? && i < |c.sets| && Tick(c, inp).Ok?
    ensures Moved(c, [], Tick(c, inp).state, i)
  {
    hide Tag, Index, Offset, BlockAddr, Play, LookupTick, AllocateTick, Pow2, R.WellFormed;
    PlayNone(c.sets[i].rp);
  }

  /** Every action, whatever the answers from below, performs on the policy of each set the operations that its lookup
      or its refill makes, each allowed where it happens; nothing else touches a policy. */
  lemma ActionMoves(c: State, a: Action, i: nat)
    requires Sound(c) && i < |c.sets| && Act(c, a).Ok?
    ensures Moved(c, PolicyOps(c, a, i), Act(c, a).state, i)
    ensures InsertedBy(PolicyOps(c, a, i)) == LogOf(RefilledWay(c, Act(c, a), i))
  {
    hide Moved, LookupTick, AllocateTick, LookupOps, Index;
    match a {
      case Ticks(inp) =>
        match c.fsm {
          case Lookup(job) => LookupMoves(c, job, inp.random, i);
          case Allocate(lower, way) => RefillMoves(c, lower, way, inp, i);
          case _ => OtherTickMoves(c, inp, i);
        }
      case Registers(client, req, random) => RegisterMoves(c, client, req, random, i);
    }
    NoInsertions(c, a, i);
  }

  function LogOf(way: Option<nat>): seq<nat> {
    match way
    case None => []
    case Some(w) => [w]
  }

  lemma RegisterMoves(c: State, client: nat, req: Request, random: nat, i: nat)
    requires Sound(c) && i < |c.sets| && TryRegister(c, client, req, random).1.Ok?
    ensures Moved(c, PolicyOps(c, Registers(client, req, random), i), TryRegister(c, client, req, random).1.state, i)
  {
    hide LookupTick, LookupOps, Index, AlignmentOk, Play;
    PlayNone(c.sets[i].rp);
    if AlignmentOk(req.addr, req.Len(), c.g.blockSize) && c.fsm.Idle? {
      RegisterIsLookup(c, client, req, random);
      var job := Job(Client(client), req);
      var c1 := c.(fsm := Lookup(job), done := c.done - {client});
      assert LookupOps(c1, job, random) == LookupOps(c, job, random) by { SameLookup(c, c1, job, random); }
      LookupMoves(c1, job, random, i);
    }
  }

  lemma SameLookup(c: State, c1: State, job: Job, random: nat)
    requires Shapes(c) && Shapes(c1) && c1.sets == c.sets && c1.g == c.g && c1.policy == c.policy
    ensures LookupOps(c1, job, random) == LookupOps(c, job, random)
  {}

  lemma ShortLogs(o: Operation, o': Operation)
    ensures InsertedBy([o]) == Insertion(o) && InsertedBy([o, o']) == Insertion(o) + Insertion(o')
  {
    assert [o][..0] == [] && [o, o'][..1] == [o];
  }

  lemma LookupInsertsNothing(c: State, job: Job, random: nat)
    requires Shapes(c)
    ensures InsertedBy(LookupOps(c, job, random)) == []
  {
    hide TagCompare, Index, Tag, InsertedBy;
    SplitMeaning(c.g, job.req.addr);
    match TagCompare(SetAt(c, job.req.addr), Tag(c.g, job.req.addr), random) {
      case EmptyQueue => assert InsertedBy([]) == [] by { NoLog(); }
      case Hit(way) => ShortLogs(Promoting(way), Promoting(way));
      case Miss(_, victim, _) => ShortLogs(Evicting(random), Promoting(victim));
    }
  }

  lemma NoLog()
    ensures InsertedBy([]) == []
  {}

  lemma NoInsertions(c: State, a: Action, i: nat)
    requires Shapes(c) && Act(c, a).Ok?
    requires a.Ticks? && c.fsm.Lookup? ==> !Act(c, a).state.fsm.MissPenalty?
    ensures InsertedBy(PolicyOps(c, a, i)) == LogOf(RefilledWay(c, Act(c, a), i))
  {
    hide LookupTick, LookupOps, AllocateTick, Index, Tag, Tick, InsertedBy, AlignmentOk;
    NoLog();
    match a {
      case Ticks(inp) =>
        if c.fsm.Lookup? {
          LookupInsertsNothing(c, c.fsm.job, inp.random);
        } else if c.fsm.Allocate? {
          ShortLogs(Inserting(c.fsm.way), Inserting(c.fsm.way));
        }
      case Registers(client, req, random) => LookupInsertsNothing(c, Job(Client(client), req), random);
    }
  }

  // ---------- Every run ----------

  /** The ways of set `i` that a run refills, in order. */
  function Refills(c: State, actions: seq<Action>, i: nat): seq<nat> {
    if |actions| == 0 then []
    else
      var before, a := actions[..|actions| - 1], actions[|actions| - 1];
      match Run(c, before)
      case None => []
      case Some(c') => if Shapes(c') then Refills(c, before, i) + LogOf(RefilledWay(c', Act(c', a), i)) else []
  }

  lemma ActionKeepsAge(c: State, a: Action, i: nat, log: seq<nat>)
    requires Sound(c) && i < |c.sets| && Act(c, a).Ok? && ByAge(c.sets[i].rp, log)
    ensures var c' := Act(c, a).state;
            && Sound(c') && c'.g == c.g && |c'.sets| == |c.sets|
            && ByAge(c'.sets[i].rp, log + LogOf(RefilledWay(c, Act(c, a), i)))
            && (c.sets[i].rp.Fifo? ==> c'.sets[i].rp.Fifo?)
  {
    hide Act, PolicyOps, Index, RefilledWay, ByAge, InsertedBy, Reserved;
    ActionMoves(c, a, i);
    PlayKeepsAge(c.sets[i].rp, PolicyOps(c, a, i), log);
    hide Play;
  }

  /** In every run of a new FIFO cache each set's queue is ordered by the time of the last refill. */
  lemma {:induction false} RunKeepsAge(c: State, actions: seq<Action>, i: nat)
    requires Sound(c) && i < |c.sets| && ByAge(c.sets[i].rp, []) && Run(c, actions).Some?
    ensures var c' := Run(c, actions).value;
            && Sound(c') && c'.g == c.g && |c'.sets| == |c.sets|
            && ByAge(c'.sets[i].rp, Refills(c, actions, i))
            && (c.sets[i].rp.Fifo? ==> c'.sets[i].rp.Fifo?)
  {
    hide Reserved, Act, ByAge, RefilledWay;
    if |actions| > 0 {
      var before := actions[..|actions| - 1];
      RunKeepsAge(c, before, i);
      ActionKeepsAge(Run(c, before).value, actions[|actions| - 1], i, Refills(c, before, i));
    }
  }

  /** First in, first out, in every run of a new cache of any geometry and any of the four write policies, whatever the
      memory below answers: a lookup that misses in a set the policy calls full gives up the way that was refilled
      longest ago. */
  lemma MissTakesOldest(g: Geometry, policy: WritePolicy, prefetcher: Prefetcher, penalty: nat, actions: seq<Action>,
                        i: nat, tag: nat, random: nat)
    requires Sliceable(g) && g.ways >= 1 && i < g.sets
    requires Run(NewCache(g, R.FifoKind, policy, prefetcher, penalty), actions).Some?
    ensures var start := NewCache(g, R.FifoKind, policy, prefetcher, penalty);
            var c, log := Run(start, actions).value, Refills(start, actions, i);
            && Shapes(c) && c.g == g
            && (R.AllValid(c.sets[i].rp.valid) && Find(c.sets[i], tag).None? ==>
                  var r := TagCompare(c.sets[i], tag, random);
                  && r.Miss? && r.victim < g.ways && 0 <= LastIn(log, r.victim)
                  && forall v: nat :: v < g.ways && v != r.victim ==> LastIn(log, r.victim) < LastIn(log, v))
  {
    var start := NewCache(g, R.FifoKind, policy, prefetcher, penalty);
    R.NewPolicyOk(R.FifoKind, g.ways);
    assert start.sets[i].rp == R.NewPolicy(R.FifoKind, g.ways);
    assert ByAge(start.sets[i].rp, []);
    hide LastIn, Run, Refills, R.Evict, ByAge, Find;
    RunKeepsAge(start, actions, i);
    var s := Run(start, actions).value.sets[i];
    if R.AllValid(s.rp.valid) && Find(s, tag).None? {
      EvictsOldest(s.rp, Refills(start, actions, i), random);
      R.EvictContract(s.rp, random);
    }
  }
}
