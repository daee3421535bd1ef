/** The cache controller as the source runs it: an object whose tick updates its state machine, its queues and the
    sets it owns in place. Each method is proved equal to the function of the same name on controller states, so what
    is proved about runs of those functions holds of runs of this object. */
module GeneralCaches {
  import opened Words
  import opened CacheConfig
  import opened MemoryPort
  import opened CacheSetUnits
  import S = CacheSet
  import R = Replacement
  import C = Cache
  import P = CacheProof

  /** A request on its way to the memory below (lower_memory.rs). */
  class LowerMemoryTransaction {
    var state: C.Lower

    constructor (req: Request)
      ensures state == C.Sending(req)
    {
      state := C.Sending(req);
    }

    /** `ok` is what the memory below answers: accepted, while sending, and done, while waiting. */
    method Progress(ok: bool) returns (finished: bool)
      modifies this
      ensures (state, finished) == C.ProgressLower(old(state), ok)
    {
      match state
      case Sending(req) =>
        if ok {
          state := C.Waiting(req);
        }
        finished := false;
      case Waiting(_) =>
        finished := ok;
    }
  }

  ghost function Parts(units: seq<CacheSetUnit>): (r: set<object>)
    ensures forall i :: 0 <= i < |units| ==> units[i].Footprint() <= r
  {
    if |units| == 0 then {} else Parts(units[..|units| - 1]) + units[|units| - 1].Footprint()
  }

  function Spliced(block: seq<Byte>, offset: nat, data: seq<Byte>): (r: seq<Byte>)
    requires offset + |data| <= |block|
    ensures r == Patch(block, offset, data)
  {
    block[..offset] + data + block[offset + |data|..]
  }

  lemma PutTwice(c: C.State, addr: Word, s: S.SetState, t: S.SetState)
    requires C.Shapes(c) && C.Shapes(C.PutSet(c, addr, s))
    ensures C.SetAt(C.PutSet(c, addr, s), addr) == s
    ensures C.PutSet(C.PutSet(c, addr, s), addr, t) == C.PutSet(c, addr, t)
  {
    SplitMeaning(c.g, addr);
  }

  lemma ShapeAt(c: C.State, addr: Word, way: nat)
    requires C.Shapes(c) && way < c.g.ways
    ensures Sliceable(c.g)
    ensures var s := C.SetAt(c, addr);
            && S.Shaped(s) && s.ways == c.g.ways == |s.blocks| == |s.valid| && |s.blocks[way]| == c.g.blockSize
            && S.Shaped(S.Touch(s, way))
  {
    SplitMeaning(c.g, addr);
    R.PromoteContract(C.SetAt(c, addr).rp, way);
  }

  lemma PutSame(c: C.State, addr: Word, rp: R.Policy)
    requires C.Shapes(c) && rp == C.SetAt(c, addr).rp
    ensures C.PutSet(c, addr, C.SetAt(c, addr).(rp := rp)) == c
  {
    SplitMeaning(c.g, addr);
    var i := Index(c.g, addr);
    assert c.sets[i := c.sets[i]] == c.sets;
  }

  lemma ShapeOfFsm(c: C.State)
    requires C.Shapes(c) && (c.fsm.WriteBack? || c.fsm.Allocate?)
    ensures c.fsm.way < c.g.ways
  {}

  lemma StillShaped(c: C.State, fsm: C.Fsm, backup: Option<C.Job>, done: map<nat, seq<Byte>>)
    requires C.Shapes(c) && (fsm.WriteBack? || fsm.Allocate? ==> fsm.way < c.g.ways)
    ensures C.Shapes(c.(fsm := fsm, backup := backup, done := done))
  {}

  /** The miss continues from the set whose policy has chosen already. */
  lemma MissAfterChoice(c: C.State, job: C.Job, writeBack: bool, victim: nat, rp: R.Policy)
    requires C.Shapes(c) && victim < c.g.ways && |rp.valid| == c.g.ways && R.WellFormed(rp)
    ensures var addr := job.req.addr;
            var chosen := C.PutSet(c, addr, C.SetAt(c, addr).(rp := rp));
            && C.Shapes(chosen) && C.SetAt(chosen, addr).rp == rp
            && C.MissTick(chosen, job, writeBack, victim, rp) == C.MissTick(c, job, writeBack, victim, rp)
  {
    hide R.WellFormed, S.Touch, Offset, BlockAddr;
    var addr := job.req.addr;
    var s := C.SetAt(c, addr).(rp := rp);
    assert C.Shapes(C.PutSet(c, addr, s));
    PutTwice(c, addr, s, s);
    PutTwice(c, addr, s, S.Touch(s, victim));
  }

  lemma AfterLookupShaped(c: C.State, before: C.State, addr: Word, hit: bool)
    requires C.Shapes(c) && before.g.blockSize > 0
    ensures C.Shapes(C.AfterLookup(c, before, addr, hit))
  {}

  /** The way being refilled is one the policy has given up. */
  predicate VictimIsFree(c: C.State)
    requires C.Shapes(c)
  {
    c.fsm.Allocate? && c.backup.Some? ==> !C.SetAt(c, c.backup.value.req.addr).rp.valid[c.fsm.way]
  }

  /** In every run it is, so the arrays of a running cache stay well formed. */
  lemma InvariantFreesVictim(c: C.State, p: Port)
    requires P.Sane(c, p)
    ensures C.Shapes(c) && VictimIsFree(c)
  {}

  /** What a lookup comes down to, by the outcome of the tag comparison. */
  lemma LookupParts(c: C.State, job: C.Job, random: nat)
    requires C.Shapes(c)
    ensures Sliceable(c.g) && c.g.blockSize > 0
    ensures S.Shaped(C.SetAt(c, job.req.addr))
    ensures match S.TagCompare(C.SetAt(c, job.req.addr), Tag(c.g, job.req.addr), random)
            case Hit(way) =>
              && way < c.g.ways && C.SetAt(c, job.req.addr).valid[way]
              && C.LookupTick(c, job, random) == Then(C.HitTick(c, job, way), c, job.req.addr, true)
            case Miss(writeBack, victim, rp) =>
              var chosen := C.PutSet(c, job.req.addr, C.SetAt(c, job.req.addr).(rp := rp));
              && victim < c.g.ways && C.Shapes(chosen) && C.SetAt(chosen, job.req.addr).rp == rp
              && |rp.valid| == c.g.ways && R.WellFormed(rp)
              && C.LookupTick(c, job, random) ==
                   Then(C.MissTick(chosen, job, writeBack, victim, rp), c, job.req.addr, false)
            case EmptyQueue => false
  {
    hide C.HitTick, C.MissTick;
    SplitMeaning(c.g, job.req.addr);
    var s := C.SetAt(c, job.req.addr);
    R.EvictContract(s.rp, random);
    match S.TagCompare(s, Tag(c.g, job.req.addr), random)
    case Miss(writeBack, victim, rp) => MissAfterChoice(c, job, writeBack, victim, rp);
    case _ =>
  }

  function Then(o: C.Outcome, before: C.State, addr: Word, hit: bool): C.Outcome
    requires before.g.blockSize > 0
  {
    match o
    case Abort(p) => o
    case Ok(c) => C.Ok(C.AfterLookup(c, before, addr, hit))
  }

  ghost predicate NoCacheAmong(objects: set<object>) {
    forall o :: o in objects ==> !(o is GeneralCache)
  }

  ghost predicate Apart(units: seq<CacheSetUnit>) {
    forall i, j :: 0 <= i < j < |units| ==> units[i].Footprint() !! units[j].Footprint()
  }

  method NewSets(kind: R.PolicyKind, ways: nat, blockSize: nat, count: nat) returns (units: seq<CacheSetUnit>)
    requires ways >= 1
    ensures |units| == count && fresh(Parts(units)) && NoCacheAmong(Parts(units)) && Apart(units)
    ensures forall i :: 0 <= i < count ==> units[i].Sized() && units[i].View() == S.NewSet(kind, ways, blockSize)
  {
    hide CacheSetUnit.View, S.NewSet, CacheSetUnit.Sized, CacheSetUnit.Valid;
    units := [];
    while |units| < count
      invariant |units| <= count && fresh(Parts(units)) && NoCacheAmong(Parts(units)) && Apart(units)
      invariant forall i :: 0 <= i < |units| ==> units[i].Sized() && units[i].View() == S.NewSet(kind, ways, blockSize)
    {
      var unit := new CacheSetUnit(kind, ways, blockSize);
      assert (units + [unit])[..|units|] == units;
      units := units + [unit];
    }
  }

  lemma NewShapes(g: Geometry, kind: R.PolicyKind, policy: WritePolicy, prefetcher: Prefetcher, missPenalty: nat)
    requires Sliceable(g) && g.ways >= 1
    ensures C.Shapes(C.NewCache(g, kind, policy, prefetcher, missPenalty))
  {
    R.NewPolicyOk(kind, g.ways);
    hide R.NewPolicy, R.WellFormed, Sliceable;
  }

  class GeneralCache {
    const g: Geometry
    const policy: WritePolicy
    const prefetcher: Prefetcher
    const missPenalty: nat
    const sets: seq<CacheSetUnit>
    var fsm: C.Fsm
    var pending: Option<C.Job>
    var backup: Option<C.Job>
    var prefetchQueue: seq<Word>
    var prefetching: bool
    var done: map<nat, seq<Byte>>

    ghost function SetParts(): set<object> {
      Parts(sets)
    }

    /** The sets share no array with each other. */
    ghost predicate Owned() {
      && this !in SetParts()
      && (forall i :: 0 <= i < |sets| ==> sets[i].Sized())
      && Apart(sets)
    }

    ghost function SetViews(): (r: seq<S.SetState>)
      reads SetParts()
      requires Owned()
      ensures |r| == |sets| && forall i :: 0 <= i < |sets| ==> r[i] == sets[i].View()
    {
      seq(|sets|, i reads SetParts() requires 0 <= i < |sets| && sets[i].Sized() => sets[i].View())
    }

    ghost function View(): C.State
      reads this, SetParts()
      requires Owned()
    {
      C.State(g, policy, prefetcher, missPenalty, SetViews(), fsm, pending, backup, prefetchQueue, prefetching, done)
    }

    ghost predicate Valid()
      reads this, SetParts()
    {
      Owned() && C.Shapes(View())
    }

    constructor (g: Geometry, kind: R.PolicyKind, policy: WritePolicy, prefetcher: Prefetcher, missPenalty: nat)
      requires Sliceable(g) && g.ways >= 1
      ensures fresh(SetParts()) && Valid()
      ensures View() == C.NewCache(g, kind, policy, prefetcher, missPenalty)
    {
      this.g, this.policy, this.prefetcher, this.missPenalty := g, policy, prefetcher, missPenalty;
      var units := NewSets(kind, g.ways, g.blockSize, g.sets);
      sets := units;
      fsm, pending, backup := C.Idle, None, None;
      prefetchQueue, prefetching, done := [], false, map[];
      new;
      hide CacheSetUnit.View, S.NewSet, Parts;
      assert SetViews() == C.NewCache(g, kind, policy, prefetcher, missPenalty).sets;
      NewShapes(g, kind, policy, prefetcher, missPenalty);
    }

    lemma OwnSet(addr: Word)
      requires Valid()
      ensures var i := Index(g, addr);
              && i < |sets| && sets[i].Footprint() <= SetParts()
              && C.SetAt(View(), addr) == sets[i].View() && sets[i].Valid()
              && sets[i].ways == g.ways && sets[i].blockSize == g.blockSize
    {
      SplitMeaning(g, addr);
    }

    method Compare(addr: Word, random: nat) returns (c: Comparison)
      requires Valid()
      modifies SetParts()
      ensures unchanged(this)
      ensures match S.TagCompare(old(C.SetAt(View(), addr)), Tag(g, addr), random)
              case Hit(way) => c == Found(way) && View() == old(View())
              case Miss(writeBack, victim, rp) =>
                && c == NotFound(writeBack, victim)
                && View() == old(C.PutSet(View(), addr, C.SetAt(View(), addr).(rp := rp)))
              case EmptyQueue => false
      ensures Valid()
    {
      hide S.TagCompare, CacheSetUnit.View, Parts;
      OwnSet(addr);
      var i := Index(g, addr);
      c := sets[i].TagCompare(Tag(g, addr), random);
      forall j | 0 <= j < |sets| && j != i
        ensures sets[j].View() == old(sets[j].View())
      {
        assert sets[j].Footprint() !! sets[i].Footprint();
      }
      assert SetViews() == old(SetViews())[i := sets[i].View()];
    }

    method ReadWay(addr: Word, way: nat) returns (block: seq<Byte>)
      requires Valid() && way < g.ways && C.SetAt(View(), addr).valid[way]
      modifies SetParts()
      ensures unchanged(this)
      ensures View() == old(C.PutSet(View(), addr, S.Touch(C.SetAt(View(), addr), way)))
      ensures block == old(C.SetAt(View(), addr)).blocks[way]
      ensures Valid()
    {
      hide S.Touch, CacheSetUnit.View, Parts, R.WellFormed;
      OwnSet(addr);
      var i := Index(g, addr);
      block := sets[i].ReadBlock(way);
      forall j | 0 <= j < |sets| && j != i
        ensures sets[j].View() == old(sets[j].View())
      {
        assert sets[j].Footprint() !! sets[i].Footprint();
      }
      assert SetViews() == old(SetViews())[i := sets[i].View()];
    }

    method WriteWay(addr: Word, way: nat, block: seq<Byte>)
      requires Valid() && way < g.ways && C.SetAt(View(), addr).valid[way] && |block| == g.blockSize
      modifies SetParts()
      ensures unchanged(this)
      ensures View() == old(C.PutSet(View(), addr, S.WriteBlock(C.SetAt(View(), addr), way, block)))
      ensures Valid()
    {
      hide S.WriteBlock, CacheSetUnit.View, Parts, R.WellFormed;
      OwnSet(addr);
      var i := Index(g, addr);
      sets[i].WriteBlock(way, block);
      forall j | 0 <= j < |sets| && j != i
        ensures sets[j].View() == old(sets[j].View())
      {
        assert sets[j].Footprint() !! sets[i].Footprint();
      }
      assert SetViews() == old(SetViews())[i := sets[i].View()];
    }

    method WriteWayClean(addr: Word, way: nat, block: seq<Byte>)
      requires Valid() && way < g.ways && C.SetAt(View(), addr).valid[way] && |block| == g.blockSize
      modifies SetParts()
      ensures unchanged(this)
      ensures View() == old(C.PutSet(View(), addr, S.WriteBlockClean(C.SetAt(View(), addr), way, block)))
      ensures Valid()
    {
      hide S.WriteBlockClean, CacheSetUnit.View, Parts, R.WellFormed;
      OwnSet(addr);
      var i := Index(g, addr);
      sets[i].WriteBlockClean(way, block);
      forall j | 0 <= j < |sets| && j != i
        ensures sets[j].View() == old(sets[j].View())
      {
        assert sets[j].Footprint() !! sets[i].Footprint();
      }
      assert SetViews() == old(SetViews())[i := sets[i].View()];
    }

    method InsertWay(addr: Word, way: nat, block: seq<Byte>)
      requires Valid() && way < g.ways && |block| == g.blockSize
      modifies SetParts()
      ensures unchanged(this)
      ensures View() == old(C.PutSet(View(), addr, S.InsertBlock(C.SetAt(View(), addr), way, Tag(g, addr), block)))
      ensures !old(C.SetAt(View(), addr)).rp.valid[way] ==> Valid()
    {
      hide S.InsertBlock, CacheSetUnit.View, Parts, R.WellFormed;
      OwnSet(addr);
      var i := Index(g, addr);
      sets[i].InsertBlock(way, Tag(g, addr), block);
      forall j | 0 <= j < |sets| && j != i
        ensures sets[j].View() == old(sets[j].View())
      {
        assert sets[j].Footprint() !! sets[i].Footprint();
      }
      assert SetViews() == old(SetViews())[i := sets[i].View()];
    }

    /** The method did what the function says: it reached that state, or stopped for that reason. */
    ghost predicate Did(o: C.Outcome, panic: Option<C.Panic>)
      reads this, SetParts()
    {
      match o
      case Ok(s) => panic.None? && Owned() && View() == s
      case Abort(p) => panic == Some(p)
    }

    method Acknowledge(owner: C.Owner, data: seq<Byte>)
      modifies `done
      ensures done == C.Complete(old(done), owner, data)
    {
      match owner
      case Client(id) => done := done[id := data];
      case Synthetic =>
    }

    /** The block has been found: a load is done with its bytes, a write-back store is done, and a write-through store
        starts its commit below. */
    method HitLookup(job: C.Job, way: nat) returns (panic: Option<C.Panic>)
      requires Valid() && way < g.ways && C.SetAt(View(), job.req.addr).valid[way]
      modifies this, SetParts()
      ensures Did(C.HitTick(old(View()), job, way), panic)
      ensures prefetching == old(prefetching) && prefetchQueue == old(prefetchQueue)
      ensures panic.None? ==> Valid()
    {
      hide C.Shapes, C.PutSet, C.SetAt, S.Shaped, S.WriteBlock, S.WriteBlockClean, R.Promote, Parts, SetViews, Offset;
      var addr, len := job.req.addr, job.req.Len();
      ghost var c := View();
      ShapeAt(c, addr, way);
      var offset := Offset(g, addr);
      ghost var touched := S.Touch(C.SetAt(c, addr), way);
      var block := ReadWay(addr, way);
      if offset + len > g.blockSize {
        return Some(C.BlockOverrun);
      }
      PutTwice(c, addr, touched, touched);
      if job.req.Load? {
        Acknowledge(job.owner, block[offset..offset + len]);
        fsm := C.Idle;
        StillShaped(C.PutSet(c, addr, touched), fsm, backup, done);
        return None;
      }
      var data := job.req.data;
      block := Spliced(block, offset, data);
      if policy.IsWriteThrough() {
        WriteWayClean(addr, way, block);
        PutTwice(c, addr, touched, S.WriteBlockClean(touched, way, block));
        fsm := C.ThroughCommit(C.Sending(Store(addr, data)), job);
        StillShaped(C.PutSet(c, addr, S.WriteBlockClean(touched, way, block)), fsm, backup, done);
      } else {
        WriteWay(addr, way, block);
        PutTwice(c, addr, touched, S.WriteBlock(touched, way, block));
        Acknowledge(job.owner, []);
        fsm := C.Idle;
        StillShaped(C.PutSet(c, addr, S.WriteBlock(touched, way, block)), fsm, backup, done);
      }
      panic := None;
    }

    /** The victim has been chosen: go around the cache, write it back, or refill it. */
    method MissLookup(job: C.Job, writeBack: bool, victim: nat) returns (panic: Option<C.Panic>)
      requires Valid() && victim < g.ways
      modifies this, SetParts()
      ensures Did(C.MissTick(old(View()), job, writeBack, victim, old(C.SetAt(View(), job.req.addr).rp)), panic)
      ensures prefetching == old(prefetching) && prefetchQueue == old(prefetchQueue)
      ensures panic.None? ==> Valid()
    {
      hide C.Shapes, C.PutSet, C.SetAt, S.Shaped, R.Promote, R.WellFormed, Parts, SetViews, CacheSetUnit.View;
      hide Tag, Index, BlockAddr, Offset;
      var addr := job.req.addr;
      ghost var c := View();
      ShapeAt(c, addr, victim);
      PutSame(c, addr, C.SetAt(c, addr).rp);
      OwnSet(addr);
      var i := Index(g, addr);
      if job.req.Store? && policy.IsNoWriteAllocate() {
        fsm := C.WriteAround(C.Sending(job.req), job);
        StillShaped(c, fsm, backup, done);
        return None;
      }
      if !writeBack {
        var allocAddr := BlockAddr(g, Tag(g, addr), i);
        backup := Some(job);
        fsm := C.Allocate(C.Sending(Load(allocAddr, Pow2(g.offsetBits))), victim);
        StillShaped(c, fsm, backup, done);
        return None;
      }
      if !sets[i].valid[victim] {
        return Some(C.InvalidBlockRead);
      }
      var wbAddr := BlockAddr(g, sets[i].tags[victim], i);
      var block := ReadWay(addr, victim);
      ghost var touched := S.Touch(C.SetAt(c, addr), victim);
      PutTwice(c, addr, touched, touched);
      backup := Some(job);
      fsm := C.WriteBack(C.Sending(Store(wbAddr, block)), victim);
      StillShaped(C.PutSet(c, addr, touched), fsm, backup, done);
      panic := None;
    }

    /** Queue the prefetcher's suggestions, each once. */
    method Suggest(addrs: seq<Word>)
      modifies `prefetchQueue
      ensures prefetchQueue == C.Enqueue(old(prefetchQueue), addrs)
    {
      var i := 0;
      while i < |addrs|
        invariant i <= |addrs|
        invariant C.Enqueue(prefetchQueue, addrs[i..]) == C.Enqueue(old(prefetchQueue), addrs)
      {
        assert addrs[i..][1..] == addrs[i + 1..];
        if addrs[i] !in prefetchQueue {
          prefetchQueue := prefetchQueue + [addrs[i]];
        }
        i := i + 1;
      }
    }

    method Lookup(job: C.Job, random: nat) returns (panic: Option<C.Panic>)
      requires Valid()
      modifies this, SetParts()
      ensures Did(C.LookupTick(old(View()), job, random), panic)
      ensures panic.None? ==> Valid()
    {
      hide C.Shapes, C.PutSet, C.SetAt, C.LookupTick, C.HitTick, C.MissTick, S.Shaped, S.TagCompare, Parts, SetViews, Tag,
        Index;
      var addr := job.req.addr;
      ghost var c := View();
      LookupParts(c, job, random);
      var isPrefetch := prefetching;
      var compared := Compare(addr, random);
      var hit := compared.Found?;
      match compared {
        case Found(way) => panic := HitLookup(job, way);
        case NotFound(writeBack, victim) => panic := MissLookup(job, writeBack, victim);
      }
      if panic.Some? {
        return;
      }
      ghost var after := View();
      if isPrefetch {
        if hit {
          prefetching := false;
        }
      } else {
        Suggest(Predict(prefetcher, addr, g.blockSize));
      }
      assert View() == C.AfterLookup(after, c, addr, hit);
      AfterLookupShaped(after, c, addr, hit);
    }

    method RefillTick(lower: C.Lower, way: nat, inp: C.Input) returns (panic: Option<C.Panic>)
      requires Valid() && fsm == C.Allocate(lower, way)
      modifies this, SetParts()
      ensures Did(C.AllocateTick(old(View()), lower, way, inp), panic)
      ensures panic.None? && old(VictimIsFree(View())) ==> Valid()
    {
      hide C.Shapes, C.PutSet, S.InsertBlock, S.Shaped, R.WellFormed, Parts, SetViews, Tag;
      assert way < g.ways by { ShapeOfFsm(View()); }
      ghost var c := View();
      var (next, finished) := C.ProgressLower(lower, inp.ok);
      if !finished {
        fsm := C.Allocate(next, way);
        StillShaped(c, fsm, backup, done);
        return None;
      }
      if backup.None? {
        return Some(C.MissingBackup);
      }
      if |inp.data| != g.blockSize {
        return Some(C.WrongRefill);
      }
      var addr := backup.value.req.addr;
      InsertWay(addr, way, inp.data);
      ghost var filled := View();
      fsm := C.MissPenalty(missPenalty);
      if VictimIsFree(c) {
        StillShaped(filled, fsm, backup, done);
      }
      panic := None;
    }

    method WriteBackTick(lower: C.Lower, way: nat, ok: bool) returns (panic: Option<C.Panic>)
      requires Valid() && fsm == C.WriteBack(lower, way)
      modifies this
      ensures Did(C.WriteBackTick(old(View()), lower, way, ok), panic)
      ensures panic.None? ==> Valid()
    {
      var (next, finished) := C.ProgressLower(lower, ok);
      if !finished {
        fsm := C.WriteBack(next, way);
      } else if backup.None? {
        return Some(C.MissingBackup);
      } else {
        var allocAddr := C.BlockBase(g, backup.value.req.addr);
        fsm := C.Allocate(C.Sending(Load(allocAddr, Pow2(g.offsetBits))), way);
      }
      panic := None;
    }

    method IdleTick()
      requires Valid() && fsm.Idle?
      modifies this
      ensures Valid() && View() == C.IdleTick(old(View()))
    {
      if pending.None? && !prefetching && |prefetchQueue| > 0 {
        fsm := C.Lookup(C.Job(C.Synthetic, Load(prefetchQueue[0], g.blockSize)));
        prefetching := true;
        prefetchQueue := prefetchQueue[1..];
      } else if pending.Some? {
        fsm := C.Lookup(pending.value);
        pending := None;
      }
    }

    /** One clock cycle; `inp` is what the memory below answers. */
    method Tick(inp: C.Input) returns (panic: Option<C.Panic>)
      requires Valid()
      modifies this, SetParts()
      ensures Did(C.Tick(old(View()), inp), panic)
      ensures panic.None? && old(VictimIsFree(View())) ==> Valid()
    {
      hide C.SetAt, C.IdleTick, C.LookupTick, C.WriteBackTick, C.AllocateTick, S.Shaped, Parts;
      panic := None;
      match fsm {
        case Idle =>
          IdleTick();
        case Lookup(job) =>
          panic := Lookup(job, inp.random);
        case WriteBack(lower, way) =>
          panic := WriteBackTick(lower, way, inp.ok);
        case Allocate(lower, way) =>
          panic := RefillTick(lower, way, inp);
        case MissPenalty(cycles) =>
          if cycles > 0 {
            fsm := C.MissPenalty(cycles - 1);
          } else if backup.None? {
            panic := Some(C.MissingBackup);
          } else {
            fsm := C.Lookup(backup.value);
            backup := None;
          }
        case ThroughCommit(lower, caller) =>
          var (next, finished) := C.ProgressLower(lower, inp.ok);
          if finished {
            Acknowledge(caller.owner, []);
            fsm := C.Idle;
          } else {
            fsm := C.ThroughCommit(next, caller);
          }
        case WriteAround(lower, caller) =>
          var (next, finished) := C.ProgressLower(lower, inp.ok);
          if finished {
            Acknowledge(caller.owner, []);
            fsm := C.Idle;
          } else {
            fsm := C.WriteAround(next, caller);
          }
      }
    }

    /** A request is taken only by an idle cache, which then ticks twice at once. */
    method TryRegister(client: nat, req: Request, random: nat) returns (accepted: bool, panic: Option<C.Panic>)
      requires Valid()
      modifies this, SetParts()
      ensures var (a, o) := C.TryRegister(old(View()), client, req, random);
              accepted == a && Did(o, panic)
      ensures panic.None? ==> Valid()
    {
      hide C.SetAt, C.LookupTick, S.Shaped, Parts;
      if !AlignmentOk(req.addr, req.Len(), g.blockSize) {
        return false, Some(C.Misaligned);
      }
      if !fsm.Idle? || pending.Some? {
        return false, None;
      }
      accepted := true;
      pending := Some(C.Job(C.Client(client), req));
      done := done - {client};
      panic := Tick(C.Input(false, [], random));
      if panic.None? {
        panic := Tick(C.Input(false, [], random));
      }
    }
  }
}
