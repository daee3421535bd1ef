/** A run of a write-back cache without write-allocate that loses a store: one set of one 4-byte way under FIFO. */
module LostStore {
  import opened Words
  import opened CacheConfig
  import opened Replacement
  import opened CacheSet
  import opened MemoryPort
  import opened Cache
  import opened CacheProof

  // ---------- A memory below that is as prompt as it can be ----------

  /** One tick over a memory that accepts at once and has performed what it accepted by the next tick. */
  function PromptTick(c: State, p: Port): Option<(State, Port)> {
    if !Shapes(c) then None
    else
      var called :=
        match LowerCall(c)
        case NoCall => (Input(false, [], 0), p)
        case Register(req) => (Input(true, [], 0), Performed(Port(p.view, Busy(req))))
        case Poll(_) => if p.slot.Ready? then (Input(true, p.slot.data, 0), Port(p.view, Free)) else (Input(false, [], 0), p);
      match Tick(c, called.0)
      case Abort(_) => None
      case Ok(c') => Some((c', called.1))
  }

  /** Register a request of client 0 and tick four times, enough for any request of this cache. */
  function Serve(c: State, p: Port, req: Request): Option<(State, Port)> {
    if !Shapes(c) then None
    else
      match TryRegister(c, 0, req, 0)
      case (true, Ok(c')) => Four(c', p)
      case _ => None
  }

  function Then(s: Option<(State, Port)>): Option<(State, Port)> {
    match s
    case None => None
    case Some((c, p)) => PromptTick(c, p)
  }

  function Four(c: State, p: Port): Option<(State, Port)> {
    Then(Then(Then(PromptTick(c, p))))
  }

  // ---------- The cache ----------

  const SMALL: Geometry := Geometry(4, 1, 1, 2, 0)

  /** The set: its one line, and whether the policy counts it. */
  function Line(block: seq<Byte>, tag: nat, valid: bool, dirty: bool, counted: bool): SetState {
    SetState(1, 4, [block], [tag], [valid], [dirty], Fifo([counted], if counted then [0] else []))
  }

  function At(line: SetState, done: map<nat, seq<Byte>>, fsm: Fsm, backup: Option<Job>): State {
    State(SMALL, WriteBackNoWriteAllocate, NullPrefetcher, 0, [line], fsm, None, backup, [], false, done)
  }

  lemma Slicing(addr: Word)
    ensures Sliceable(SMALL) && Pow2(2) == 4
    ensures Offset(SMALL, addr) == addr % 4 && Index(SMALL, addr) == 0 && Tag(SMALL, addr) == addr / 4
    ensures addr % 4 == 0 ==> BlockAddr(SMALL, addr / 4, 0) == addr
  {
    assert Pow2(2) == 4 && Pow2(0) == 1;
    SplitMeaning(SMALL, addr);
    SplitThenJoin(SMALL, addr);
  }

  lemma AtShaped(line: SetState, done: map<nat, seq<Byte>>, fsm: Fsm, backup: Option<Job>)
    requires Shaped(line) && line.ways == 1 && line.blockSize == 4
    requires fsm.WriteBack? || fsm.Allocate? ==> fsm.way == 0
    ensures Shapes(At(line, done, fsm, backup))
  {
    hide Pow2, Sliceable, Shaped, Offset, Index, Tag, BlockAddr;
    Slicing(0);
  }

  lemma LineShaped(b: seq<Byte>, t: nat, v: bool, d: bool, counted: bool)
    requires |b| == 4
    ensures Shaped(Line(b, t, v, d, counted))
  {}

  // ---------- A load that misses a line the policy does not count ----------

  lemma LoadRegisters(b: seq<Byte>, t: nat, v: bool, d: bool, done: map<nat, seq<Byte>>, addr: Word)
    requires |b| == 4 && addr % 4 == 0 && addr + 4 <= TWO_32 && (v ==> t != addr / 4)
    ensures var line, req := Line(b, t, v, d, false), Load(addr, 4);
            && Shapes(At(line, done, Idle, None))
            && TryRegister(At(line, done, Idle, None), 0, req, 0) ==
                 (true, Ok(At(line, done - {0}, Allocate(Sending(req), 0), Some(Job(Client(0), req)))))
  {
    var line, req := Line(b, t, v, d, false), Load(addr, 4);
    var job := Job(Client(0), req);
    Slicing(addr);
    LineShaped(b, t, v, d, false);
    AtShaped(line, done, Idle, None);
    AtShaped(line, done - {0}, Lookup(job), None);
    hide Pow2, Sliceable, Shaped, Shapes, Offset, Index, Tag, BlockAddr, AlignmentOk;
    assert AlignmentOk(addr, 4, 4) by { AlignedWord(addr); }
    RegisterIsLookup(At(line, done, Idle, None), 0, req, 0);
    LoadLooksUp(b, t, v, d, done - {0}, addr);
  }

  lemma AlignedWord(addr: Word)
    ensures addr % 4 == 0 ==> AlignmentOk(addr, 4, 4)
  {}

  lemma LoadLooksUp(b: seq<Byte>, t: nat, v: bool, d: bool, done: map<nat, seq<Byte>>, addr: Word)
    requires |b| == 4 && addr % 4 == 0 && addr + 4 <= TWO_32 && (v ==> t != addr / 4)
    ensures var line, req := Line(b, t, v, d, false), Load(addr, 4);
            var job := Job(Client(0), req);
            && Shapes(At(line, done, Lookup(job), None))
            && LookupTick(At(line, done, Lookup(job), None), job, 0) ==
                 Ok(At(line, done, Allocate(Sending(req), 0), Some(job)))
  {
    var line, req := Line(b, t, v, d, false), Load(addr, 4);
    var job := Job(Client(0), req);
    Slicing(addr);
    LineShaped(b, t, v, d, false);
    AtShaped(line, done, Lookup(job), None);
    assert Find(line, addr / 4).None?;
    GivenUpFirst(line);
    hide Pow2, Sliceable, Shaped, Shapes, Offset, Index, Tag, BlockAddr;
    assert [line][0 := line] == [line];
  }

  lemma GivenUpFirst(line: SetState)
    requires Shaped(line) && |line.rp.valid| == 1 && !line.rp.valid[0]
    ensures Evict(line.rp, 0) == Some(Eviction(false, 0, line.rp))
  {}

  lemma LineFilled(b: seq<Byte>, t: nat, v: bool, d: bool, tag: nat, bytes: seq<Byte>)
    requires |b| == 4 && Shaped(Line(b, t, v, d, false))
    ensures InsertBlock(Line(b, t, v, d, false), 0, tag, bytes) == Line(bytes, tag, true, false, true)
  {
    assert [b][0 := bytes] == [bytes] && [t][0 := tag] == [tag] && [v][0 := true] == [true] && [d][0 := false] == [false];
    assert [false][0 := true] == [true] && [0] + [] == [0];
  }

  lemma RefillSends(line: SetState, done: map<nat, seq<Byte>>, m: Memory, req: Request, job: Job)
    requires req.Load? && req.InSpace() && Shapes(At(line, done, Allocate(Sending(req), 0), Some(job)))
    ensures PromptTick(At(line, done, Allocate(Sending(req), 0), Some(job)), Port(m, Free)) ==
              Some((At(line, done, Allocate(Waiting(req), 0), Some(job)), Port(m, Ready(req, m[req.addr..req.addr + req.len]))))
  {
    hide Shapes;
  }

  lemma RefillArrives(b: seq<Byte>, t: nat, v: bool, d: bool, done: map<nat, seq<Byte>>, m: Memory, addr: Word, bytes: seq<Byte>)
    requires |b| == 4 && addr % 4 == 0 && |bytes| == 4
    ensures var line, req := Line(b, t, v, d, false), Load(addr, 4);
            var job := Job(Client(0), req);
            PromptTick(At(line, done, Allocate(Waiting(req), 0), Some(job)), Port(m, Ready(req, bytes))) ==
              Some((At(Line(bytes, addr / 4, true, false, true), done, MissPenalty(0), Some(job)), Port(m, Free)))
  {
    hide Pow2, Sliceable, Shaped, Shapes, Offset, Index, Tag, BlockAddr, LookupTick, Apply, Answer;
    var line, req := Line(b, t, v, d, false), Load(addr, 4);
    var filled := Line(bytes, addr / 4, true, false, true);
    Slicing(addr);
    LineShaped(b, t, v, d, false);
    AtShaped(line, done, Allocate(Waiting(req), 0), Some(Job(Client(0), req)));
    assert [line][0 := filled] == [filled];
    assert InsertBlock(line, 0, addr / 4, bytes) == filled by { LineFilled(b, t, v, d, addr / 4, bytes); }
  }

  /** The refill is accepted, arrives and is inserted, and the load is looked up again and hits. */
  lemma LoadRefills(b: seq<Byte>, t: nat, v: bool, d: bool, done: map<nat, seq<Byte>>, m: Memory, addr: Word)
    requires |b| == 4 && addr % 4 == 0 && addr + 4 <= TWO_32
    ensures var line, req, bytes := Line(b, t, v, d, false), Load(addr, 4), m[addr..addr + 4];
            var job := Job(Client(0), req);
            Four(At(line, done, Allocate(Sending(req), 0), Some(job)), Port(m, Free)) ==
              Some((At(Line(bytes, addr / 4, true, false, true), done[0 := bytes], Idle, None), Port(m, Free)))
  {
    var line, req, bytes := Line(b, t, v, d, false), Load(addr, 4), m[addr..addr + 4];
    var job, filled := Job(Client(0), req), Line(bytes, addr / 4, true, false, true);
    hide Pow2, Sliceable, Shaped, Shapes, Offset, Index, Tag, BlockAddr, Four, LookupTick, Apply;
    LineShaped(b, t, v, d, false);
    LineShaped(bytes, addr / 4, true, false, true);
    AtShaped(line, done, Allocate(Sending(req), 0), Some(job));
    AtShaped(filled, done, MissPenalty(0), Some(job));
    AtShaped(filled, done, Lookup(job), None);
    RefillSends(line, done, m, req, job);
    RefillArrives(b, t, v, d, done, m, addr, bytes);
    assert PromptTick(At(filled, done, MissPenalty(0), Some(job)), Port(m, Free))
        == Some((At(filled, done, Lookup(job), None), Port(m, Free)));
    LoadHits(bytes, done, addr);
    assert PromptTick(At(filled, done, Lookup(job), None), Port(m, Free))
        == Some((At(filled, done[0 := bytes], Idle, None), Port(m, Free)));
    FourSteps(At(line, done, Allocate(Sending(req), 0), Some(job)), Port(m, Free));
  }

  lemma FourSteps(c: State, p: Port)
    ensures Four(c, p) == Then(Then(Then(PromptTick(c, p))))
  {}

  lemma LoadHits(bytes: seq<Byte>, done: map<nat, seq<Byte>>, addr: Word)
    requires |bytes| == 4 && addr % 4 == 0
    ensures var filled, job := Line(bytes, addr / 4, true, false, true), Job(Client(0), Load(addr, 4));
            && Shapes(At(filled, done, Lookup(job), None))
            && LookupTick(At(filled, done, Lookup(job), None), job, 0) == Ok(At(filled, done[0 := bytes], Idle, None))
  {
    var filled, job := Line(bytes, addr / 4, true, false, true), Job(Client(0), Load(addr, 4));
    Slicing(addr);
    LineShaped(bytes, addr / 4, true, false, true);
    AtShaped(filled, done, Lookup(job), None);
    assert Find(filled, addr / 4) == Some(0);
    hide Pow2, Sliceable, Shaped, Shapes, Offset, Index, Tag, BlockAddr, Find;
    assert [filled][0 := filled] == [filled];
    assert bytes[0..4] == bytes;
  }

  // ---------- Stores ----------

  lemma IdleStays(line: SetState, done: map<nat, seq<Byte>>, p: Port)
    requires Shaped(line) && line.ways == 1 && line.blockSize == 4
    ensures PromptTick(At(line, done, Idle, None), p) == Some((At(line, done, Idle, None), p))
  {
    AtShaped(line, done, Idle, None);
    hide Shapes, Shaped;
  }

  lemma StoreLooksUp(b: seq<Byte>, done: map<nat, seq<Byte>>, addr: Word, data: seq<Byte>)
    requires |b| == 4 && |data| == 4 && addr % 4 == 0
    ensures var line, job := Line(b, addr / 4, true, false, true), Job(Client(0), Store(addr, data));
            && Shapes(At(line, done, Lookup(job), None))
            && LookupTick(At(line, done, Lookup(job), None), job, 0) ==
                 Ok(At(Line(data, addr / 4, true, true, true), done[0 := []], Idle, None))
  {
    hide Pow2, Sliceable, Shaped, Shapes, Offset, Index, Tag, BlockAddr;
    var line, dirty, job := Line(b, addr / 4, true, false, true), Line(data, addr / 4, true, true, true), Job(Client(0), Store(addr, data));
    Slicing(addr);
    LineShaped(b, addr / 4, true, false, true);
    AtShaped(line, done, Lookup(job), None);
    assert Find(line, addr / 4) == Some(0);
    assert Patch(b, 0, data) == data;
    assert [b][0 := data] == [data] && [false][0 := true] == [true];
    assert [line][0 := dirty] == [dirty];
  }

  /** A store into the line is done at once and makes it dirty. */
  lemma StoreHits(b: seq<Byte>, done: map<nat, seq<Byte>>, p: Port, addr: Word, data: seq<Byte>)
    requires |b| == 4 && |data| == 4 && addr % 4 == 0
    ensures Serve(At(Line(b, addr / 4, true, false, true), done, Idle, None), p, Store(addr, data)) ==
              Some((At(Line(data, addr / 4, true, true, true), done[0 := []], Idle, None), p))
  {
    hide Pow2, Sliceable, Shaped, Shapes, AlignmentOk, PromptTick, LookupTick, TryRegister;
    var line, dirty, job := Line(b, addr / 4, true, false, true), Line(data, addr / 4, true, true, true), Job(Client(0), Store(addr, data));
    LineShaped(b, addr / 4, true, false, true);
    LineShaped(data, addr / 4, true, true, true);
    AtShaped(line, done, Idle, None);
    AlignedWord(addr);
    RegisterIsLookup(At(line, done, Idle, None), 0, job.req, 0);
    StoreLooksUp(b, done - {0}, addr, data);
    assert (done - {0})[0 := []] == done[0 := []];
    IdleStays(dirty, done[0 := []], p);
  }

  lemma StoreMissLooksUp(b: seq<Byte>, t: nat, done: map<nat, seq<Byte>>, addr: Word, data: seq<Byte>)
    requires |b| == 4 && |data| == 4 && t != addr / 4
    ensures var line, job := Line(b, t, true, true, true), Job(Client(0), Store(addr, data));
            && Shapes(At(line, done, Lookup(job), None))
            && LookupTick(At(line, done, Lookup(job), None), job, 0) ==
                 Ok(At(Line(b, t, true, true, false), done, WriteAround(Sending(job.req), job), None))
  {
    hide Pow2, Sliceable, Shaped, Shapes, Offset, Index, Tag, BlockAddr;
    var line, given, job := Line(b, t, true, true, true), Line(b, t, true, true, false), Job(Client(0), Store(addr, data));
    Slicing(addr);
    LineShaped(b, t, true, true, true);
    AtShaped(line, done, Lookup(job), None);
    assert Find(line, addr / 4).None?;
    FullLine(line.rp);
    hide Find, Evict;
    assert [line][0 := given] == [given];
  }

  lemma FullLine(rp: Policy)
    requires rp == Fifo([true], [0])
    ensures Evict(rp, 0) == Some(Eviction(true, 0, Fifo([false], [])))
  {
    assert rp.valid[0 := false] == [false];
  }

  /** A store that misses the full set goes around it; the policy no longer counts the line, which stays. */
  lemma StoreMissRegisters(b: seq<Byte>, t: nat, done: map<nat, seq<Byte>>, addr: Word, data: seq<Byte>)
    requires |b| == 4 && |data| == 4 && addr % 4 == 0 && t != addr / 4
    ensures var line, req := Line(b, t, true, true, true), Store(addr, data);
            && Shapes(At(line, done, Idle, None))
            && TryRegister(At(line, done, Idle, None), 0, req, 0) ==
                 (true, Ok(At(Line(b, t, true, true, false), done - {0}, WriteAround(Sending(req), Job(Client(0), req)), None)))
  {
    hide Pow2, Sliceable, Shaped, Shapes, AlignmentOk, LookupTick, TryRegister;
    var line := Line(b, t, true, true, true);
    LineShaped(b, t, true, true, true);
    AtShaped(line, done, Idle, None);
    AlignedWord(addr);
    RegisterIsLookup(At(line, done, Idle, None), 0, Store(addr, data), 0);
    StoreMissLooksUp(b, t, done - {0}, addr, data);
  }

  lemma StoreGoesAround(b: seq<Byte>, t: nat, done: map<nat, seq<Byte>>, m: Memory, addr: Word, data: seq<Byte>)
    requires |b| == 4 && |data| == 4 && addr + 4 <= TWO_32
    ensures var line, req := Line(b, t, true, true, false), Store(addr, data);
            Four(At(line, done, WriteAround(Sending(req), Job(Client(0), req)), None), Port(m, Free)) ==
              Some((At(line, done[0 := []], Idle, None), Port(Patch(m, addr, data), Free)))
  {
    var line, req := Line(b, t, true, true, false), Store(addr, data);
    var job := Job(Client(0), req);
    LineShaped(b, t, true, true, false);
    AtShaped(line, done, WriteAround(Sending(req), job), None);
    AtShaped(line, done, WriteAround(Waiting(req), job), None);
    hide Shaped, Shapes;
    assert PromptTick(At(line, done, WriteAround(Sending(req), job), None), Port(m, Free))
        == Some((At(line, done, WriteAround(Waiting(req), job), None), Port(Patch(m, addr, data), Ready(req, []))));
    assert PromptTick(At(line, done, WriteAround(Waiting(req), job), None), Port(Patch(m, addr, data), Ready(req, [])))
        == Some((At(line, done[0 := []], Idle, None), Port(Patch(m, addr, data), Free)));
    IdleStays(line, done[0 := []], Port(Patch(m, addr, data), Free));
  }

  // ---------- The run ----------

  lemma NewSetIsLine()
    ensures NewSet(FifoKind, 1, 4) == Line([0, 0, 0, 0], 0, false, false, false)
  {
    var s := NewSet(FifoKind, 1, 4);
    assert s.blocks[0] == [0, 0, 0, 0];
    assert s.blocks == [[0, 0, 0, 0]] && s.tags == [0] && s.valid == [false] && s.dirty == [false] && s.rp.valid == [false];
  }

  lemma NewIsAt()
    ensures Sliceable(SMALL)
    ensures NewCache(SMALL, FifoKind, WriteBackNoWriteAllocate, NullPrefetcher, 0)
         == At(Line([0, 0, 0, 0], 0, false, false, false), map[], Idle, None)
  {
    hide Sliceable, NewSet, Pow2, Offset, Index, Tag, BlockAddr;
    Slicing(0);
    NewSetIsLine();
    assert NewCache(SMALL, FifoKind, WriteBackNoWriteAllocate, NullPrefetcher, 0).sets == [NewSet(FifoKind, 1, 4)];
  }

  lemma LoadServes(b: seq<Byte>, t: nat, v: bool, d: bool, done: map<nat, seq<Byte>>, m: Memory, addr: Word)
    requires |b| == 4 && addr % 4 == 0 && addr + 4 <= TWO_32 && (v ==> t != addr / 4)
    ensures var bytes := m[addr..addr + 4];
            Serve(At(Line(b, t, v, d, false), done, Idle, None), Port(m, Free), Load(addr, 4)) ==
              Some((At(Line(bytes, addr / 4, true, false, true), done[0 := bytes], Idle, None), Port(m, Free)))
  {
    hide Four, TryRegister, Shapes, At, Line, Pow2;
    LoadRegisters(b, t, v, d, done, addr);
    LoadRefills(b, t, v, d, done - {0}, m, addr);
    assert (done - {0})[0 := m[addr..addr + 4]] == done[0 := m[addr..addr + 4]];
  }

  lemma StoreMissServes(b: seq<Byte>, t: nat, done: map<nat, seq<Byte>>, m: Memory, addr: Word, data: seq<Byte>)
    requires |b| == 4 && |data| == 4 && addr % 4 == 0 && addr + 4 <= TWO_32 && t != addr / 4
    ensures Serve(At(Line(b, t, true, true, true), done, Idle, None), Port(m, Free), Store(addr, data)) ==
              Some((At(Line(b, t, true, true, false), done[0 := []], Idle, None), Port(Patch(m, addr, data), Free)))
  {
    hide Four, TryRegister, Shapes, At, Line, Pow2;
    StoreMissRegisters(b, t, done, addr, data);
    StoreGoesAround(b, t, done - {0}, m, addr, data);
    assert (done - {0})[0 := []] == done[0 := []];
  }

  lemma ReadsLine(b: seq<Byte>, done: map<nat, seq<Byte>>, m: Memory)
    requires |b| == 4
    ensures var c := At(Line(b, 0, true, true, true), done, Idle, None);
            Shapes(c) && Presented(c, Port(m, Free))[0..4] == b
  {
    var line := Line(b, 0, true, true, true);
    LineShaped(b, 0, true, true, true);
    AtShaped(line, done, Idle, None);
    assert Find(line, 0) == Some(0);
    hide Shapes, Find, Tag, Index, Offset, Pow2, Sliceable;
    var view := Presented(At(line, done, Idle, None), Port(m, Free));
    forall a: Word | a < 4
      ensures view[a] == b[a]
    {
      Slicing(a);
    }
  }

  lemma ReadsBelow(b: seq<Byte>, t: nat, done: map<nat, seq<Byte>>, m: Memory)
    requires |b| == 4 && t > 0
    ensures var c := At(Line(b, t, true, false, true), done, Idle, None);
            Shapes(c) && Presented(c, Port(m, Free))[0..4] == m[0..4]
  {
    var line := Line(b, t, true, false, true);
    LineShaped(b, t, true, false, true);
    AtShaped(line, done, Idle, None);
    assert Find(line, 0) == None;
    hide Shapes, Find, Tag, Index, Offset, Pow2, Sliceable;
    var view := Presented(At(line, done, Idle, None), Port(m, Free));
    forall a: Word | a < 4
      ensures view[a] == m[a]
    {
      Slicing(a);
    }
  }

  /** The store of `data` at 0 is acknowledged and readable; after a store to another block has gone around the cache
      and a third block has been loaded, the bytes at 0 are again those from before the store. */
  lemma StoreIsLost(m: Memory, data: seq<Byte>, other: seq<Byte>)
    requires |data| == 4 && |other| == 4
    ensures Sliceable(SMALL)
    ensures var fresh' := NewCache(SMALL, FifoKind, WriteBackNoWriteAllocate, NullPrefetcher, 0);
            var loaded := Serve(fresh', Port(m, Free), Load(0, 4));
            && loaded.Some?
            && var stored := Serve(loaded.value.0, loaded.value.1, Store(0, data));
            && stored.Some? && Shapes(stored.value.0)
            && Presented(stored.value.0, stored.value.1)[0..4] == data
            && var around := Serve(stored.value.0, stored.value.1, Store(4, other));
            && around.Some?
            && var lost := Serve(around.value.0, around.value.1, Load(8, 4));
            && lost.Some? && Shapes(lost.value.0)
            && Presented(lost.value.0, lost.value.1)[0..4] == m[0..4]
  {
    hide Serve, Presented, Shapes, Shaped, Sliceable, At, NewCache;
    var zero := [0, 0, 0, 0];
    NewIsAt();
    LoadServes(zero, 0, false, false, map[], m, 0);
    var bytes, done := m[0..4], map[0 := m[0..4]];
    assert map[][0 := m[0..4]] == done;
    StoreHits(bytes, done, Port(m, Free), 0, data);
    var done2 := done[0 := []];
    ReadsLine(data, done2, m);
    StoreMissServes(data, 0, done2, m, 4, other);
    var below, done3 := Patch(m, 4, other), done2[0 := []];
    LoadServes(data, 0, true, true, done3, below, 8);
    ReadsBelow(below[8..12], 2, done3[0 := below[8..12]], below);
    assert below[0..4] == m[0..4];
  }
}
