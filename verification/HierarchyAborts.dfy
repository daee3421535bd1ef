/** When the hierarchy stops: only for requests its parts refuse by an assertion, never because of what the parts do
    to each other. */
module HierarchyAborts {
  import opened Words
  import opened CacheConfig
  import opened MemoryPort
  import opened Cache
  import opened CacheProof
  import opened CachePort
  import opened MainMemory
  import opened MainPort
  import opened DramProof
  import opened Hierarchy
  import opened HierarchyProof
  import opened Prefetch

  /** The causes, by event: a misaligned registration, a prefetch running past its block at the end of the address
      space, or an address outside main memory. */
  predicate Cause(s: System, e: Event)
    requires SystemOk(s)
  {
    match e
    case CpuRegister(req, _) => !AlignmentOk(req.addr, req.Len(), s.l1.g.blockSize)
    case FetchRegister(addr, len, _) => !AlignmentOk(addr, len, s.l2.g.blockSize)
    case TickL1(_, _) => PrefetchOverruns(s.l1)
    case TickL2(_) =>
      PrefetchOverruns(s.l2) || (LowerCall(s.l2).Register? && OutsideMain(s.main, LowerCall(s.l2).req))
    case TickMain => s.main.SimpleMain? && s.main.Pending().Some? && Overruns(s.main, s.main.Pending().value)
  }

  predicate Overruns(m: Main, req: Request) {
    req.addr + req.Len() > |m.Data()|
  }

  predicate OutsideMain(m: Main, req: Request) {
    if m.SimpleMain? then req.addr >= MEM_SIZE else Overruns(m, req)
  }

  lemma RegistrationAborts(c: State, p: Port, client: nat, req: Request, random: nat)
    requires Invariant(c, p) && c.g.blockSize >= 4
    ensures TryRegister(c, client, req, random).1.Abort? ==> !AlignmentOk(req.addr, req.Len(), c.g.blockSize)
  {
    FsmOfInvariant(c, p);
    if AlignmentOk(req.addr, req.Len(), c.g.blockSize) {
      RegisterIsPortStep(c, p, client, req, random);
    }
  }

  lemma TickAborts(c: State, p: Port, inp: Input)
    requires Invariant(c, p) && Legal(c, p, inp)
    ensures Tick(c, inp).Abort? ==> PrefetchOverruns(c)
  {
    TickKeeps(c, p, inp);
  }

  lemma L1Aborts(s: System, random: nat, randomBelow: nat)
    requires SystemOk(s)
    ensures StepL1(s, random, randomBelow).Aborted? ==> PrefetchOverruns(s.l1)
  {
    L1Facts(s);
    FsmOfInvariant(s.l1, BelowL1(s));
    match LowerCall(s.l1) {
      case NoCall => TickAborts(s.l1, BelowL1(s), Input(false, [], random));
      case Register(req) =>
        EmittedRequestAligned(s.l1, BelowL1(s), s.l2.g, req);
        RegistrationAborts(s.l2, BelowL2(s), L1D, req, randomBelow);
        TickAborts(s.l1, BelowL1(s), Input(true, [], random));
        TickAborts(s.l1, BelowL1(s), Input(false, [], random));
      case Poll(_) =>
        var inp := if L1D in s.l2.done then Input(true, s.l2.done[L1D], random) else Input(false, [], random);
        PollLegal(s, inp);
        TickAborts(s.l1, BelowL1(s), inp);
    }
    hide TryRegister, Tick, Invariant, SystemOk, Presented;
  }

  lemma L2Aborts(s: System, random: nat)
    requires SystemOk(s)
    ensures StepL2(s, random).Aborted? ==> Cause(s, TickL2(random))
  {
    hide Tick, Invariant, Presented, PrefetchOverruns;
    var p := BelowL2(s);
    FsmOfInvariant(s.l2, p);
    match LowerCall(s.l2) {
      case NoCall => TickAborts(s.l2, p, Input(false, [], random));
      case Register(req) =>
        TickAborts(s.l2, p, Input(true, [], random));
        TickAborts(s.l2, p, Input(false, [], random));
      case Poll(req) =>
        var inp := if s.main.Finished().Some? then Input(true, s.main.Finished().value, random) else Input(false, [], random);
        assert Legal(s.l2, p, inp);
        TickAborts(s.l2, p, inp);
    }
  }

  /** An event that stops the hierarchy has one of these causes; none of them is a request that one level makes of
      the next, except at the bounds of main memory. */
  lemma AbortsOnlyForCause(s: System, e: Event)
    requires SystemOk(s) && Step(s, e).Aborted?
    ensures Cause(s, e)
  {
    hide StepL1, StepL2, TryRegister, Invariant, Presented, PrefetchOverruns, Shapes, BelowL2, BelowL1, AlignmentOk;
    match e {
      case CpuRegister(req, random) => RegistrationAborts(s.l1, BelowL1(s), CPU, req, random);
      case FetchRegister(addr, len, random) => RegistrationAborts(s.l2, BelowL2(s), L1I, Load(addr, len), random);
      case TickL1(random, randomBelow) => L1Aborts(s, random, randomBelow);
      case TickL2(random) => L2Aborts(s, random);
      case TickMain =>
        if s.main.DramMain? {
          DramTickKeeps(s.main.dram);
        }
    }
  }

  // ---------- In a run ----------

  predicate Suggested(s: System) {
    s.l1.g.blockSize > 0 && s.l2.g.blockSize > 0 && PrefetchOk(s.l1) && PrefetchOk(s.l2)
  }

  lemma StepKeepsSuggested(s: System, e: Event)
    requires Shapes(s.l1) && Shapes(s.l2) && MainOk(s.main) && Suggested(s) && Step(s, e).Next?
    ensures Suggested(Step(s, e).system)
  {
    hide Tick, TryRegister, PrefetchOk, Shapes, MainRegister, MainTick;
    match e {
      case CpuRegister(req, random) => RegisterKeepsSuggestions(s.l1, CPU, req, random);
      case FetchRegister(addr, len, random) => RegisterKeepsSuggestions(s.l2, L1I, Load(addr, len), random);
      case TickL1(random, randomBelow) => StepL1KeepsSuggested(s, random, randomBelow);
      case TickL2(random) => StepL2KeepsSuggested(s, random);
      case TickMain =>
    }
  }

  lemma StepL1KeepsSuggested(s: System, random: nat, randomBelow: nat)
    requires Shapes(s.l1) && Shapes(s.l2) && Suggested(s) && StepL1(s, random, randomBelow).Next?
    ensures Suggested(StepL1(s, random, randomBelow).system)
  {
    hide Tick, TryRegister, PrefetchOk, Shapes;
    var inp := match LowerCall(s.l1)
      case NoCall => Input(false, [], random)
      case Register(req) => Input(TryRegister(s.l2, L1D, req, randomBelow).0, [], random)
      case Poll(_) => if L1D in s.l2.done then Input(true, s.l2.done[L1D], random) else Input(false, [], random);
    TickKeepsSuggestions(s.l1, inp);
    if LowerCall(s.l1).Register? {
      RegisterKeepsSuggestions(s.l2, L1D, LowerCall(s.l1).req, randomBelow);
    }
  }

  lemma StepL2KeepsSuggested(s: System, random: nat)
    requires Shapes(s.l2) && Suggested(s) && StepL2(s, random).Next?
    ensures Suggested(StepL2(s, random).system)
  {
    hide Tick, PrefetchOk, Shapes, MainRegister;
    var inp := match LowerCall(s.l2)
      case NoCall => Input(false, [], random)
      case Register(req) => Input(MainRegister(s.main, req).value.0, [], random)
      case Poll(_) =>
        if s.main.Finished().Some? then Input(true, s.main.Finished().value, random) else Input(false, [], random);
    TickKeepsSuggestions(s.l2, inp);
  }

  lemma {:induction false} RunKeepsSuggested(h: History, events: seq<Event>)
    requires Suggested(h.system) && Run(h, events).Running?
    ensures Suggested(Run(h, events).h.system)
  {
    hide Step, Shapes, PrefetchOk;
    if |events| > 0 {
      var before := events[..|events| - 1];
      RunKeepsSuggested(h, before);
      var g, e := Run(h, before).h, events[|events| - 1];
      if Shapes(g.system.l1) && Shapes(g.system.l2) && MainOk(g.system.main) && Step(g.system, e).Next? {
        StepKeepsSuggested(g.system, e);
      }
    }
  }

  lemma FreshSuggested(s: System)
    requires Fresh(s)
    ensures Suggested(s)
  {}

  /** What can stop a run of a fresh hierarchy: an event that asks for it, and for a tick of a cache only a prefetch of
      the very last address or a request beyond main memory. */
  predicate CauseInRun(s: System, e: Event)
    requires SystemOk(s)
  {
    && Cause(s, e)
    && (e.TickL1? ==> s.l1.fsm.job.req.addr == TWO_32 - 1)
    && (e.TickL2? ==> (s.l2.fsm.Lookup? ==> s.l2.fsm.job.req.addr == TWO_32 - 1))
  }

  /** A run of a fresh hierarchy that an event stops had one of these causes. */
  lemma RunStopsOnlyForCause(s: System, events: seq<Event>, e: Event)
    requires Fresh(s) && Run(History(s, []), events).Running? && RunStep(Run(History(s, []), events).h, e).Stopped?
    ensures var t := Run(History(s, []), events).h.system;
            SystemOk(t) && CauseInRun(t, e)
  {
    hide SystemOk, Run, PrefetchOk, Fresh, FlatMemory, Padded, Answer, AfterAll;
    HierarchyIsFlat(s, events);
    FreshSuggested(s);
    RunKeepsSuggested(History(s, []), events);
    StopHasCause(Run(History(s, []), events).h, e);
  }

  lemma StopHasCause(h: History, e: Event)
    requires SystemOk(h.system) && Suggested(h.system) && RunStep(h, e).Stopped?
    ensures CauseInRun(h.system, e)
  {
    hide Step, SystemOk, PrefetchOk;
    var t := h.system;
    OkMeansShapes(t);
    AbortsOnlyForCause(t, e);
    if PrefetchOverruns(t.l1) {
      OverrunIsLastAddress(t.l1);
    }
    if PrefetchOverruns(t.l2) {
      OverrunIsLastAddress(t.l2);
    }
  }
}
