/** The data side of the memory hierarchy: an L1 data cache over an L2 cache over a main memory, with an L1
    instruction cache competing for L2. To the processor it is one flat byte array. */
module Hierarchy {
  import opened Words
  import opened MemoryPort
  import opened Cache
  import opened CacheProof
  import opened CachePort
  import opened MainPort

  const CPU: nat := 0    // the only client of L1-D
  const L1D: nat := 0    // the clients of L2
  const L1I: nat := 1

  datatype System = System(l1: State, l2: State, main: Main)

  /** What may happen next, in any order: the processor or the instruction cache registers a request, or one of the
      clocked parts ticks. The random numbers are those the replacement policies draw. */
  datatype Event =
    | CpuRegister(req: Request, random: nat)
    | FetchRegister(addr: Word, len: nat, random: nat)
    | TickL1(random: nat, randomBelow: nat)
    | TickL2(random: nat)
    | TickMain

  datatype Stepped = Next(system: System) | Aborted

  /** Registration of L1's request at L2, in the middle of L1's tick. */
  function L1AsksL2(s: System, req: Request, random: nat, randomBelow: nat): Stepped
    requires Shapes(s.l1) && Shapes(s.l2)
  {
    var (ok, r) := TryRegister(s.l2, L1D, req, randomBelow);
    if r.Abort? then Aborted
    else
      match Tick(s.l1, Input(ok, [], random))
      case Abort(_) => Aborted
      case Ok(l1) => Next(s.(l1 := l1, l2 := r.state))
  }

  function StepL1(s: System, random: nat, randomBelow: nat): Stepped
    requires Shapes(s.l1) && Shapes(s.l2)
  {
    match LowerCall(s.l1)
    case Register(req) => L1AsksL2(s, req, random, randomBelow)
    case Poll(_) =>
      (var inp := if L1D in s.l2.done then Input(true, s.l2.done[L1D], random) else Input(false, [], random);
       match Tick(s.l1, inp)
       case Abort(_) => Aborted
       case Ok(l1) => Next(s.(l1 := l1)))
    case NoCall =>
      (match Tick(s.l1, Input(false, [], random))
       case Abort(_) => Aborted
       case Ok(l1) => Next(s.(l1 := l1)))
  }

  function StepL2(s: System, random: nat): Stepped
    requires Shapes(s.l2)
  {
    match LowerCall(s.l2)
    case Register(req) =>
      (match MainRegister(s.main, req)
       case Failed(_) => Aborted
       case Fine((ok, main)) =>
         match Tick(s.l2, Input(ok, [], random))
         case Abort(_) => Aborted
         case Ok(l2) => Next(s.(l2 := l2, main := main)))
    case Poll(_) =>
      (var inp := if s.main.Finished().Some? then Input(true, s.main.Finished().value, random) else Input(false, [], random);
       match Tick(s.l2, inp)
       case Abort(_) => Aborted
       case Ok(l2) => Next(s.(l2 := l2)))
    case NoCall =>
      (match Tick(s.l2, Input(false, [], random))
       case Abort(_) => Aborted
       case Ok(l2) => Next(s.(l2 := l2)))
  }

  function Step(s: System, e: Event): Stepped
    requires Shapes(s.l1) && Shapes(s.l2) && MainOk(s.main)
  {
    match e
    case CpuRegister(req, random) =>
      (match TryRegister(s.l1, CPU, req, random).1
       case Abort(_) => Aborted
       case Ok(l1) => Next(s.(l1 := l1)))
    case FetchRegister(addr, len, random) =>
      (match TryRegister(s.l2, L1I, Load(addr, len), random).1
       case Abort(_) => Aborted
       case Ok(l2) => Next(s.(l2 := l2)))
    case TickL1(random, randomBelow) => StepL1(s, random, randomBelow)
    case TickL2(random) => StepL2(s, random)
    case TickMain =>
      (match MainTick(s.main)
       case Failed(_) => Aborted
       case Fine(main) => Next(s.(main := main)))
  }

  // ---------- What each level sees below it ----------

  /** The request a cache has had accepted below and is waiting for. */
  function Outstanding(c: State): Option<Request> {
    match LowerCall(c)
    case Poll(req) => Some(req)
    case _ => None
  }

  /** Main memory, as L2 sees it. */
  function BelowL2(s: System): Port
    requires MainOk(s.main)
  {
    MainAsPort(s.main, Outstanding(s.l2))
  }

  /** L2 over main memory, as L1-D sees it. */
  function BelowL1(s: System): Port
    requires MainOk(s.main) && Shapes(s.l2)
  {
    match Outstanding(s.l1)
    case None => Port(Presented(s.l2, BelowL2(s)), Free)
    case Some(req) => PortFor(s.l2, BelowL2(s), L1D, req)
  }

  /** The whole hierarchy, as the processor sees it while its request is outstanding. */
  function Flat(s: System, req: Request): Port
    requires MainOk(s.main) && Shapes(s.l1) && Shapes(s.l2)
  {
    PortFor(s.l1, BelowL1(s), CPU, req)
  }

  /** The flat memory. */
  function FlatMemory(s: System): Memory
    requires MainOk(s.main) && Shapes(s.l1) && Shapes(s.l2)
  {
    Presented(s.l1, BelowL1(s))
  }

  predicate ServesOnly(c: State, client: nat) {
    Current(c).Some? && Current(c).value.owner.Client? ==> Current(c).value.owner.id == client
  }

  predicate NotServing(c: State, client: nat) {
    Current(c).Some? && Current(c).value.owner.Client? ==> Current(c).value.owner.id != client
  }

  predicate SystemOk(s: System) {
    && MainOk(s.main) && Shapes(s.l1) && Shapes(s.l2)
    && s.l1.g.offsetBits <= s.l2.g.offsetBits && s.l1.g.blockSize >= 4 && s.l2.g.blockSize >= 4
    && Invariant(s.l2, BelowL2(s))
    && Invariant(s.l1, BelowL1(s))
    && ServesOnly(s.l1, CPU)
    && OthersOnlyLoad(s.l2, L1D)
    && (Outstanding(s.l1).None? ==> NotServing(s.l2, L1D))
    && (Outstanding(s.l2).None? ==> s.main.Pending().None?)
  }
}
