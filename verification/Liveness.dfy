/** Every accepted request is served: in any run in which the three clocked parts keep ticking, in whatever order and
    however often, and the instruction cache sooner or later stops registering loads at L2, the processor's request is
    done after finitely many events. The argument is a rank that no tick raises and that the tick of one part lowers. */
module Liveness {
  import opened Words
  import opened CacheConfig
  import opened Replacement
  import opened CacheSet
  import opened MemoryPort
  import opened Cache
  import opened CacheProof
  import opened CachePort
  import opened MainMemory
  import opened DramProof
  import opened MainPort
  import opened Hierarchy
  import opened HierarchyProof

  // ---------- One cache ----------

  /** How far the job in the machine has come: a miss goes through at most one refill, then hits. */
  function Phase(c: State): nat
    requires Shapes(c)
  {
    match c.fsm
    case Idle => 0
    case Lookup(job) => if FoundAt(c, job.req.addr).Some? then 3 else 9
    case WriteBack(lower, _) => if lower.Sending? then 8 else 7
    case Allocate(lower, _) => if lower.Sending? then 6 else 5
    case MissPenalty(_) => 4
    case ThroughCommit(lower, _) => if lower.Sending? then 2 else 1
    case WriteAround(lower, _) => if lower.Sending? then 2 else 1
  }

  function Left(c: State): nat {
    if c.fsm.MissPenalty? then c.fsm.cycles else 0
  }

  predicate Nearer(c: State, c': State)
    requires Shapes(c) && Shapes(c')
  {
    Phase(c') < Phase(c) || (Phase(c') == Phase(c) && Left(c') < Left(c))
  }

  lemma LookupNearer(c: State, job: Job, random: nat)
    requires Shapes(c) && c.fsm == Lookup(job) && LookupTick(c, job, random).Ok?
    requires Shapes(LookupTick(c, job, random).state)
    ensures Nearer(c, LookupTick(c, job, random).state)
  {
    hide Tag, Index, Offset, BlockAddr, Predict, Enqueue, SetAt, Shaped, WellFormed, Evict, Pow2;
  }

  /** A tick brings a busy cache nearer to the end of its job, unless it waits for the memory below. */
  lemma TickNearer(c: State, p: Port, inp: Input)
    requires Invariant(c, p) && Legal(c, p, inp) && !c.fsm.Idle? && Tick(c, inp).Ok?
    ensures Shapes(c) && Shapes(Tick(c, inp).state)
    ensures if LowerCall(c).NoCall? || inp.ok then Nearer(c, Tick(c, inp).state) else Tick(c, inp).state == c
  {
    FsmOfInvariant(c, p);
    TickKeeps(c, p, inp);
    FsmOfInvariant(Tick(c, inp).state, Below(c, p, inp));
    hide Invariant, FsmOk, LookupTick, Shapes, FoundAt, TickEffect, Legal, Below;
    match c.fsm {
      case Lookup(job) => LookupNearer(c, job, inp.random);
      case MissPenalty(cycles) => PenaltyFinds(c, p, inp);
      case _ => LowerNearer(c, inp);
    }
  }

  lemma LowerNearer(c: State, inp: Input)
    requires Shapes(c) && !LowerCall(c).NoCall? && Tick(c, inp).Ok? && Shapes(Tick(c, inp).state)
    ensures if inp.ok then Nearer(c, Tick(c, inp).state) else Tick(c, inp).state == c
  {
    hide Tag, Index, Offset, BlockAddr, LookupTick, InsertBlock, Shapes, FoundAt, Pow2;
  }

  lemma PenaltyFinds(c: State, p: Port, inp: Input)
    requires Invariant(c, p) && c.fsm.MissPenalty?
    ensures Tick(c, inp).Ok? && Shapes(Tick(c, inp).state)
    ensures var c' := Tick(c, inp).state;
            if c.fsm.cycles > 0 then c'.fsm == MissPenalty(c.fsm.cycles - 1)
            else c'.fsm.Lookup? && FoundAt(c', c'.fsm.job.req.addr).Some?
  {
    hide Sane, Tracks, FoundAt, Shapes;
    FsmOfSane(c, p);
    PenaltyKeeps(c, p, inp);
    FsmOfSane(Tick(c, inp).state, p);
  }

  /** The queue of suggestions only grows for a client's lookups, and an idle cache takes one off. */
  lemma QueueFlow(c: State, inp: Input)
    requires Shapes(c) && Tick(c, inp).Ok? && c.pending.None?
    requires c.fsm.Lookup? ==> c.prefetching
    ensures var c' := Tick(c, inp).state;
            if c.fsm.Idle? then c' == c || |c'.prefetchQueue| < |c.prefetchQueue|
            else c'.prefetchQueue == c.prefetchQueue
  {
    hide Tag, Index, Offset, BlockAddr, InsertBlock, TagCompare, SetAt, Predict, Enqueue, Pow2;
  }

  // ---------- The rank ----------

  datatype Rank = Rank(phase: nat, left: nat, client: nat, queue: nat, below: nat, belowLeft: nat, main: nat)

  predicate Less(x: Rank, y: Rank) {
    if x.phase != y.phase then x.phase < y.phase
    else if x.left != y.left then x.left < y.left
    else if x.client != y.client then x.client < y.client
    else if x.queue != y.queue then x.queue < y.queue
    else if x.below != y.below then x.below < y.below
    else if x.belowLeft != y.belowLeft then x.belowLeft < y.belowLeft
    else x.main < y.main
  }

  /** The ticks main memory still needs for its request. */
  function MainLeft(m: Main): nat
    requires MainOk(m)
  {
    if m.Pending().None? then 0
    else if m.SimpleMain? then m.simple.countdown + 1
    else Remaining(m.dram)
  }

  predicate ServesClient(c: State) {
    Current(c).Some? && Current(c).value.owner.Client?
  }

  /** First how far L1 has come. While it waits at L2: until L2 is free, the instruction cache's load that L2 may be
      serving and then the prefetches it may start; and once L2 has accepted, how far L2 and main memory have come. */
  function RankOf(s: System): Rank
    requires Shapes(s.l1) && Shapes(s.l2) && MainOk(s.main)
  {
    var phase, left, main := Phase(s.l1), Left(s.l1), MainLeft(s.main);
    match LowerCall(s.l1)
    case NoCall => Rank(phase, left, 0, 0, 0, 0, 0)
    case Register(_) =>
      if ServesClient(s.l2) then Rank(phase, left, 1, 0, Phase(s.l2), Left(s.l2), main)
      else Rank(phase, left, 0, |s.l2.prefetchQueue|, Phase(s.l2), Left(s.l2), main)
    case Poll(_) =>
      if L1D in s.l2.done then Rank(phase, left, 0, 0, 0, 0, 0)
      else Rank(phase, left, 1, 0, Phase(s.l2), Left(s.l2), main)
  }

  datatype Part = PartL1 | PartL2 | PartMain

  /** The part whose tick lowers the rank. */
  function Helpful(s: System): Part {
    if LowerCall(s.l1).NoCall? || (LowerCall(s.l1).Register? && s.l2.fsm.Idle?) || (LowerCall(s.l1).Poll? && L1D in s.l2.done)
    then PartL1
    else if LowerCall(s.l2).Poll? && s.main.Finished().None? then PartMain
    else PartL2
  }

  predicate TickOf(e: Event, part: Part) {
    match part
    case PartL1 => e.TickL1?
    case PartL2 => e.TickL2?
    case PartMain => e.TickMain?
  }

  /** The rank goes down, or the rank and the helpful part stay. */
  predicate Advances(s: System, t: System, e: Event)
    requires Shapes(s.l1) && Shapes(s.l2) && MainOk(s.main)
    requires Shapes(t.l1) && Shapes(t.l2) && MainOk(t.main)
  {
    Less(RankOf(t), RankOf(s)) || (RankOf(t) == RankOf(s) && Helpful(t) == Helpful(s) && !TickOf(e, Helpful(s)))
  }

  // ---------- Main memory ----------

  lemma MainNearer(m: Main)
    requires MainOk(m) && MainTick(m).Fine?
    ensures MainOk(MainTick(m).value)
    ensures if m.Pending().Some? then MainLeft(MainTick(m).value) < MainLeft(m) else MainTick(m).value == m
  {
    if m.DramMain? {
      DramTickKeeps(m.dram);
      if m.Pending().Some? {
        RemainingPositive(m.dram);
      }
    }
    hide DramTick, Remaining, BankOk, Read, Write, WillHit, WillMiss;
  }

  lemma RemainingPositive(d: Dram)
    requires DramOk(d) && d.pending.Some?
    ensures Remaining(d) >= 1
  {}

  lemma MainTickAdvances(s: System)
    requires SystemOk(s) && Step(s, TickMain).Next?
    ensures var t := Step(s, TickMain).system;
            MainOk(t.main) && Shapes(t.l1) && Shapes(t.l2) && Advances(s, t, TickMain)
  {
    hide MainTick, Invariant, MainLeft, Phase, Left;
    MainNearer(s.main);
    if Helpful(s).PartMain? {
      MainWaits(s);
    }
    hide BelowL1;
  }

  // ---------- L2 ----------

  /** When L1 waits at L2 and has not been answered, L2 is serving it. */
  lemma L2ServesL1(s: System)
    requires SystemOk(s) && LowerCall(s.l1).Poll? && L1D !in s.l2.done
    ensures ServesClient(s.l2) && !s.l2.fsm.Idle?
  {
    L1Waits(s);
    FsmOfInvariant(s.l2, BelowL2(s));
    hide Invariant, FsmOk, BelowL2;
  }

  /** What a tick of L2 does to L2 and to main memory. */
  lemma L2Nearer(s: System, random: nat)
    requires SystemOk(s) && StepL2(s, random).Next? && !s.l2.fsm.Idle?
    ensures var t := StepL2(s, random).system;
            && Shapes(s.l2) && Shapes(t.l2)
            && if LowerCall(s.l2).Poll? && s.main.Finished().None? then t == s else Nearer(s.l2, t.l2) && t.l1 == s.l1
  {
    hide Tick, Invariant, BelowL2, BelowL1, Nearer, Legal, Below;
    L2InputLegal(s, random);
    var inp := L2Input(s, random);
    TickNearer(s.l2, BelowL2(s), inp);
    L2Accepts(s, random);
  }

  /** Main memory is free when L2 has nothing outstanding, so it accepts. */
  lemma L2Accepts(s: System, random: nat)
    requires SystemOk(s) && StepL2(s, random).Next?
    ensures LowerCall(s.l2).Register? ==> L2Input(s, random).ok
    ensures LowerCall(s.l2).Poll? ==> L2Input(s, random).ok == s.main.Finished().Some?
    ensures !LowerCall(s.l2).Register? ==> StepL2(s, random).system.main == s.main
  {
    hide Tick, Invariant, BelowL2, BelowL1, RowOf;
  }

  /** Whom L2 serves after a tick, and what it has queued. */
  lemma L2Serves(s: System, random: nat)
    requires SystemOk(s) && StepL2(s, random).Next?
    ensures var t := StepL2(s, random).system;
            && t.l1 == s.l1
            && (ServesClient(t.l2) ==> ServesClient(s.l2))
            && (!ServesClient(s.l2) && s.l2.fsm.Idle? ==> t == s || |t.l2.prefetchQueue| < |s.l2.prefetchQueue|)
            && (!ServesClient(s.l2) && !s.l2.fsm.Idle? ==> t.l2.prefetchQueue == s.l2.prefetchQueue)
  {
    L2InputLegal(s, random);
    var inp := L2Input(s, random);
    TickServes(s.l2, BelowL2(s), inp);
    FsmOfInvariant(s.l2, BelowL2(s));
    hide Tick, Invariant, BelowL2, BelowL1, Legal, Below, FsmOk, Shapes;
    if !ServesClient(s.l2) {
      QueueFlow(s.l2, inp);
      L2Accepts(s, random);
    }
  }

  /** What follows for the rank. */
  lemma L2Compare(s: System, t: System, random: nat)
    requires Shapes(s.l1) && Shapes(s.l2) && MainOk(s.main) && Shapes(t.l2) && MainOk(t.main) && t.l1 == s.l1
    requires L1D in s.l2.done ==> L1D in t.l2.done
    requires ServesClient(t.l2) ==> ServesClient(s.l2)
    requires LowerCall(s.l1).Poll? && L1D !in s.l2.done ==> !s.l2.fsm.Idle?
    requires LowerCall(s.l1).Register? && s.l2.fsm.Idle? ==>
               !ServesClient(s.l2) && (t == s || |t.l2.prefetchQueue| < |s.l2.prefetchQueue|)
    requires !s.l2.fsm.Idle? ==>
               && (!ServesClient(s.l2) ==> t.l2.prefetchQueue == s.l2.prefetchQueue)
               && if LowerCall(s.l2).Poll? && s.main.Finished().None? then t == s else Nearer(s.l2, t.l2)
    ensures Advances(s, t, TickL2(random))
  {
    hide Phase, Left, MainLeft, Shapes, MainOk, ServesClient;
  }

  lemma L2TickAdvances(s: System, random: nat)
    requires SystemOk(s) && Step(s, TickL2(random)).Next?
    ensures var t := Step(s, TickL2(random)).system;
            MainOk(t.main) && Shapes(t.l1) && Shapes(t.l2) && Advances(s, t, TickL2(random))
  {
    hide Invariant, BelowL1, BelowL2, Shapes, SystemOk, StepL2, Advances, Nearer, FlatStep, ServesClient;
    OkMeansShapes(s);
    var t := Step(s, TickL2(random)).system;
    EventIsPortStep(s, TickL2(random), Load(0, 0));
    L2Serves(s, random);
    if L1D in s.l2.done {
      L2KeepsDone(s, random);
    } else if LowerCall(s.l1).Poll? {
      L2ServesL1(s);
    }
    if s.l2.fsm.Idle? {
      IdleServesNobody(s);
    } else {
      L2Nearer(s, random);
    }
    L2Compare(s, t, random);
  }

  lemma IdleServesNobody(s: System)
    requires SystemOk(s) && s.l2.fsm.Idle?
    ensures !ServesClient(s.l2)
  {
    FsmOfInvariant(s.l2, BelowL2(s));
    hide Invariant;
  }

  lemma L2KeepsDone(s: System, random: nat)
    requires SystemOk(s) && StepL2(s, random).Next? && L1D in s.l2.done
    ensures L1D in StepL2(s, random).system.l2.done
  {
    hide Tick, Invariant, BelowL2, BelowL1;
    L2InputLegal(s, random);
    DoneStays(s.l2, L2Input(s, random));
  }

  // ---------- L1 ----------

  /** L1's request is accepted as soon as L2 is idle. */
  lemma L1Asks(s: System, req: Request, random: nat, randomBelow: nat)
    requires SystemOk(s) && LowerCall(s.l1) == Register(req) && StepL1(s, random, randomBelow).Next?
    ensures var (ok, r) := TryRegister(s.l2, L1D, req, randomBelow);
            (ok <==> s.l2.fsm.Idle?) && r.Ok? && (!ok ==> r.state == s.l2)
  {
    EmittedRequestAligned(s.l1, BelowL1(s), s.l2.g, req);
    hide Tick, TryRegister, Invariant, BelowL1, BelowL2, AlignmentOk, SlotFor;
    RegisterIsPortStep(s.l2, BelowL2(s), L1D, req, randomBelow);
  }

  lemma L1Nearer(s: System, random: nat, randomBelow: nat)
    requires SystemOk(s) && StepL1(s, random, randomBelow).Next? && !s.l1.fsm.Idle?
    ensures var t := StepL1(s, random, randomBelow).system;
            && Shapes(s.l1) && Shapes(t.l1)
            && if Helpful(s).PartL1? then Nearer(s.l1, t.l1) else t == s
  {
    L1Facts(s);
    OkMeansShapes(s);
    var p := BelowL1(s);
    hide Tick, TryRegister, Invariant, BelowL1, BelowL2, Nearer, Shapes;
    match LowerCall(s.l1) {
      case NoCall => TickNearer(s.l1, p, Input(false, [], random));
      case Register(req) =>
        L1Asks(s, req, random, randomBelow);
        TickNearer(s.l1, p, Input(TryRegister(s.l2, L1D, req, randomBelow).0, [], random));
      case Poll(_) =>
        var inp := if L1D in s.l2.done then Input(true, s.l2.done[L1D], random) else Input(false, [], random);
        PollLegal(s, inp);
        TickNearer(s.l1, p, inp);
    }
  }

  lemma L1TickAdvances(s: System, random: nat, randomBelow: nat)
    requires SystemOk(s) && Step(s, TickL1(random, randomBelow)).Next? && !s.l1.fsm.Idle?
    ensures var t := Step(s, TickL1(random, randomBelow)).system;
            MainOk(t.main) && Shapes(t.l1) && Shapes(t.l2) && Advances(s, t, TickL1(random, randomBelow))
  {
    hide Invariant, BelowL1, BelowL2, Shapes, SystemOk, StepL1, Nearer, FlatStep, Helpful;
    OkMeansShapes(s);
    var t := Step(s, TickL1(random, randomBelow)).system;
    EventIsPortStep(s, TickL1(random, randomBelow), Load(0, 0));
    L1Nearer(s, random, randomBelow);
    if Helpful(s).PartL1? {
      NearerIsLess(s, t);
    }
  }

  lemma NearerIsLess(s: System, t: System)
    requires Shapes(s.l1) && Shapes(s.l2) && MainOk(s.main) && Shapes(t.l1) && Shapes(t.l2) && MainOk(t.main)
    requires Nearer(s.l1, t.l1)
    ensures Less(RankOf(t), RankOf(s))
  {
    hide Phase, Left, MainLeft, Shapes, MainOk, ServesClient;
  }

  // ---------- Every fair run ----------

  /** The system after the first `n` events. */
  function After(s: System, events: nat -> Event, n: nat): Stepped {
    if n == 0 then Next(s)
    else
      match After(s, events, n - 1)
      case Aborted => Aborted
      case Next(t) => if Shapes(t.l1) && Shapes(t.l2) && MainOk(t.main) then Step(t, events(n - 1)) else Aborted
  }

  predicate IsTick(e: Event) {
    e.TickL1? || e.TickL2? || e.TickMain?
  }

  ghost predicate TicksAgain(events: nat -> Event, part: Part, i: nat) {
    exists j: nat :: i <= j && TickOf(events(j), part)
  }

  /** The processor waits, every part ticks again and again, and from event `quiet` on the instruction cache has
      stopped registering loads at L2. */
  ghost predicate Fair(events: nat -> Event, quiet: nat) {
    && (forall i: nat :: !events(i).CpuRegister?)
    && (forall i: nat :: i >= quiet ==> IsTick(events(i)))
    && (forall part, i: nat :: TicksAgain(events, part, i))
  }

  lemma EventKeeps(s: System, e: Event)
    requires SystemOk(s) && !e.CpuRegister?
    ensures Shapes(s.l1) && Shapes(s.l2) && MainOk(s.main)
    ensures Step(s, e).Next? ==> SystemOk(Step(s, e).system)
  {
    OkMeansShapes(s);
    hide SystemOk, Step, FlatStep;
    if Step(s, e).Next? {
      EventIsPortStep(s, e, Load(0, 0));
    }
  }

  lemma EventAdvances(s: System, e: Event)
    requires SystemOk(s) && !s.l1.fsm.Idle? && IsTick(e)
    ensures Shapes(s.l1) && Shapes(s.l2) && MainOk(s.main)
    ensures Step(s, e).Next? ==>
              var t := Step(s, e).system;
              SystemOk(t) && MainOk(t.main) && Shapes(t.l1) && Shapes(t.l2) && Advances(s, t, e)
  {
    OkMeansShapes(s);
    EventKeeps(s, e);
    hide SystemOk, Advances, Step, Shapes, MainOk;
    if Step(s, e).Next? {
      match e {
        case TickL1(random, randomBelow) => L1TickAdvances(s, random, randomBelow);
        case TickL2(random) => L2TickAdvances(s, random);
        case TickMain => MainTickAdvances(s);
      }
    }
  }

  lemma {:induction false} AfterKeeps(s: System, events: nat -> Event, quiet: nat, n: nat)
    requires SystemOk(s) && Fair(events, quiet)
    ensures After(s, events, n).Next? ==> SystemOk(After(s, events, n).system)
  {
    hide SystemOk, Step;
    if n > 0 && After(s, events, n).Next? {
      AfterKeeps(s, events, quiet, n - 1);
      EventKeeps(After(s, events, n - 1).system, events(n - 1));
    }
  }

  /** L1 is at rest after `n` events, or one of them has stopped the hierarchy. */
  predicate AtRestOrStopped(s: System, events: nat -> Event, n: nat) {
    After(s, events, n).Next? ==> After(s, events, n).system.l1.fsm.Idle?
  }

  /** Until the helpful part ticks nothing raises the rank; then at the latest it goes down. */
  lemma {:induction false} RankDrops(s: System, events: nat -> Event, quiet: nat, i: nat, j: nat, t: System) returns (n: nat)
    requires SystemOk(s) && Fair(events, quiet) && quiet <= i <= j && After(s, events, i) == Next(t)
    requires SystemOk(t) && Shapes(t.l1) && Shapes(t.l2) && MainOk(t.main) && !t.l1.fsm.Idle?
    requires TickOf(events(j), Helpful(t))
    ensures n > i
    ensures After(s, events, n).Next? ==>
              var u := After(s, events, n).system;
              SystemOk(u) && Shapes(u.l1) && Shapes(u.l2) && MainOk(u.main) && (u.l1.fsm.Idle? || Less(RankOf(u), RankOf(t)))
    decreases j - i
  {
    hide SystemOk, Step, RankOf, Helpful, Less, Shapes, MainOk;
    n := i + 1;
    EventAdvances(t, events(i));
    if After(s, events, n).Next? {
      var u := After(s, events, n).system;
      if !u.l1.fsm.Idle? && !Less(RankOf(u), RankOf(t)) {
        assert i < j;
        n := RankDrops(s, events, quiet, n, j, u);
      }
    }
  }

  lemma {:induction false} RestFrom(s: System, events: nat -> Event, quiet: nat, i: nat, t: System, r: Rank) returns (n: nat)
    requires SystemOk(s) && Fair(events, quiet) && quiet <= i && After(s, events, i) == Next(t)
    requires SystemOk(t) && Shapes(t.l1) && Shapes(t.l2) && MainOk(t.main) && r == RankOf(t)
    ensures n >= i && AtRestOrStopped(s, events, n)
    decreases r.phase, r.left, r.client, r.queue, r.below, r.belowLeft, r.main
  {
    hide SystemOk, RankOf, Helpful, Shapes, MainOk, After;
    n := i;
    if !t.l1.fsm.Idle? {
      assert TicksAgain(events, Helpful(t), i);
      var j: nat :| i <= j && TickOf(events(j), Helpful(t));
      n := RankDrops(s, events, quiet, i, j, t);
      if After(s, events, n).Next? {
        var u := After(s, events, n).system;
        if !u.l1.fsm.Idle? {
          n := RestFrom(s, events, quiet, n, u, RankOf(u));
        }
      }
    }
  }

  /** Liveness: in every fair run L1 comes to rest, whatever it and L2 were doing, unless an event stops the hierarchy. */
  lemma L1ComesToRest(s: System, events: nat -> Event, quiet: nat) returns (n: nat)
    requires SystemOk(s) && Fair(events, quiet)
    ensures n >= quiet && AtRestOrStopped(s, events, n)
  {
    hide SystemOk, RankOf, After;
    n := quiet;
    AfterKeeps(s, events, quiet, quiet);
    if After(s, events, quiet).Next? {
      var t := After(s, events, quiet).system;
      OkMeansShapes(t);
      n := RestFrom(s, events, quiet, quiet, t, RankOf(t));
    }
  }

  // ---------- The processor's request ----------

  /** The processor's request has been accepted, and is on its way or done. */
  predicate Outstands(s: System, req: Request) {
    SystemOk(s) && SlotFor(s.l1, BelowL1(s), CPU, req) != Free
  }

  /** A cache at rest has finished what it accepted. */
  lemma DoneAtRest(s: System, req: Request)
    requires Outstands(s, req) && s.l1.fsm.Idle?
    ensures CPU in s.l1.done
  {
    FsmOfInvariant(s.l1, BelowL1(s));
    hide Invariant, BelowL1;
  }

  lemma EventKeepsOutstanding(s: System, req: Request, e: Event)
    requires Outstands(s, req) && !e.CpuRegister?
    ensures Shapes(s.l1) && Shapes(s.l2) && MainOk(s.main)
    ensures Step(s, e).Next? ==> Outstands(Step(s, e).system, req)
  {
    hide Invariant, BelowL1, SlotFor, NotServing, Step, Presented;
    OkMeansShapes(s);
    if Step(s, e).Next? {
      EventIsPortStep(s, e, req);
      hide SystemOk;
    }
  }

  lemma {:induction false} StaysOutstanding(s: System, req: Request, events: nat -> Event, quiet: nat, n: nat)
    requires Outstands(s, req) && Fair(events, quiet)
    ensures After(s, events, n).Next? ==> Outstands(After(s, events, n).system, req)
  {
    hide Outstands, Step;
    if n > 0 && After(s, events, n).Next? {
      StaysOutstanding(s, req, events, quiet, n - 1);
      EventKeepsOutstanding(After(s, events, n - 1).system, req, events(n - 1));
    }
  }

  /** Every accepted request is done after finitely many events of a fair run. */
  lemma EveryRequestIsServed(s: System, req: Request, events: nat -> Event, quiet: nat) returns (n: nat)
    requires Outstands(s, req) && Fair(events, quiet)
    ensures After(s, events, n).Next? ==> CPU in After(s, events, n).system.l1.done
  {
    hide BelowL1, SlotFor, After, Fair;
    n := L1ComesToRest(s, events, quiet);
    StaysOutstanding(s, req, events, quiet, n);
    if After(s, events, n).Next? {
      DoneAtRest(After(s, events, n).system, req);
    }
  }

  /** What it means for a request to have been accepted. */
  lemma AcceptedOutstands(s: System, req: Request, random: nat)
    requires SystemOk(s) && Shapes(s.l1) && Shapes(s.l2) && MainOk(s.main)
    requires s.l1.fsm.Idle? && Step(s, CpuRegister(req, random)).Next?
    ensures Outstands(Step(s, CpuRegister(req, random)).system, req)
  {
    CpuEvent(s, req, random);
    hide SystemOk, Step, Presented, SlotFor, BelowL1;
  }
}
