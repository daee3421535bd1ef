/** The two main memories: the flat 15-cycle one (simple_mem.rs) and the single-bank DRAM controller
    (simple_dram/mod.rs, simple_dram/bank.rs), each as one-tick functions. */
module MainMemory {
  import opened Words
  import opened MemoryPort

  // ---------- SimpleMem ----------

  const MEM_SIZE: nat := 0x40000
  const MAIN_MEM_LATENCY: nat := 15

  /** `finished` is the buffer of the latest request accepted, once it is done. */
  datatype SimpleMem = SimpleMem(
    data: seq<Byte>, pending: Option<Request>, countdown: nat, loads: nat, stores: nat, finished: Option<seq<Byte>>)

  datatype MemPanic = OutOfBounds | NoPendingRequest | IllegalCommand

  datatype MemOutcome<T> = Fine(value: T) | Failed(panic: MemPanic)

  function NewSimpleMem(data: seq<Byte>): SimpleMem {
    SimpleMem(data, None, MAIN_MEM_LATENCY, 0, 0, None)
  }

  /** Registration: refused while a request is pending. */
  function SimpleRegister(m: SimpleMem, req: Request): MemOutcome<(bool, SimpleMem)> {
    if req.addr >= MEM_SIZE then Failed(OutOfBounds)
    else if m.pending.Some? then Fine((false, m))
    else
      Fine((true, m.(pending := Some(req), countdown := MAIN_MEM_LATENCY, finished := None,
                     loads := if req.Load? then m.loads + 1 else m.loads,
                     stores := if req.Store? then m.stores + 1 else m.stores)))
  }

  /** The bytes a request reads, and the data it leaves. */
  function Read(data: seq<Byte>, req: Request): seq<Byte>
    requires req.addr + req.Len() <= |data|
  {
    if req.Load? then data[req.addr..req.addr + req.len] else []
  }

  function Write(data: seq<Byte>, req: Request): (r: seq<Byte>)
    ensures |r| == |data|
  {
    if req.Load? then data else Patch(data, req.addr, req.data)
  }

  function SimpleTick(m: SimpleMem): MemOutcome<SimpleMem> {
    if m.pending.None? then Fine(m)
    else if m.countdown > 0 then Fine(m.(countdown := m.countdown - 1))
    else
      var req := m.pending.value;
      if req.addr + req.Len() > |m.data| then Failed(OutOfBounds)
      else Fine(m.(pending := None, data := Write(m.data, req), finished := Some(Read(m.data, req))))
  }

  // ---------- The DRAM bank ----------

  datatype BankState =
    | Idle
    | Activating(row: nat, remaining: nat)
    | Active(row: nat)
    | Precharging(remaining: nat)
    | Reading(row: nat, remaining: nat)
    | Writing(row: nat, remaining: nat)

  datatype BankEvent = NoEvent | ActivationFinished | PrechargeFinished | ReadFinished | WriteFinished

  /** The commands; None is an assertion of the code that fails. */
  function IssueActivate(b: BankState, row: nat, t: nat): Option<BankState> {
    if b.Idle? && t >= 1 then Some(Activating(row, t)) else None
  }

  function IssuePrecharge(b: BankState, t: nat): Option<BankState> {
    if b.Active? && t >= 1 then Some(Precharging(t)) else None
  }

  function IssueRead(b: BankState, row: nat, t: nat): Option<BankState> {
    if b == Active(row) && t >= 1 then Some(Reading(row, t)) else None
  }

  function IssueWrite(b: BankState, row: nat, t: nat): Option<BankState> {
    if b == Active(row) && t >= 1 then Some(Writing(row, t)) else None
  }

  /** One cycle of a countdown; a count of one is the cycle in which it ends. A count of zero underflows. */
  function Advance(b: BankState): Option<(BankState, BankEvent)> {
    match b
    case Idle => Some((b, NoEvent))
    case Active(_) => Some((b, NoEvent))
    case Activating(row, n) =>
      if n == 0 then None else if n == 1 then Some((Active(row), ActivationFinished)) else Some((Activating(row, n - 1), NoEvent))
    case Precharging(n) =>
      if n == 0 then None else if n == 1 then Some((Idle, PrechargeFinished)) else Some((Precharging(n - 1), NoEvent))
    case Reading(row, n) =>
      if n == 0 then None else if n == 1 then Some((Active(row), ReadFinished)) else Some((Reading(row, n - 1), NoEvent))
    case Writing(row, n) =>
      if n == 0 then None else if n == 1 then Some((Active(row), WriteFinished)) else Some((Writing(row, n - 1), NoEvent))
  }

  // ---------- The DRAM controller ----------

  datatype Timing = Timing(tRcd: nat, tCl: nat, tRp: nat)

  datatype Dram = Dram(
    data: seq<Byte>,
    timing: Timing,
    rowSize: nat,
    bank: BankState,
    pending: Option<Request>,
    activated: bool,
    hits: nat,
    misses: nat,
    finished: Option<seq<Byte>>)

  predicate TimingOk(t: Timing) {
    t.tRcd >= 1 && t.tCl >= 1 && t.tRp >= 1
  }

  function NewDram(data: seq<Byte>, timing: Timing, rowSize: nat): Dram {
    Dram(data, timing, rowSize, Idle, None, false, 0, 0, None)
  }

  function DramRegister(d: Dram, req: Request): MemOutcome<(bool, Dram)> {
    if req.addr + req.Len() > |d.data| then Failed(OutOfBounds)
    else if d.pending.Some? then Fine((false, d))
    else Fine((true, d.(pending := Some(req), activated := false, finished := None)))
  }

  function RowOf(d: Dram, req: Request): nat
    requires d.rowSize >= 1
  {
    req.addr / d.rowSize
  }

  function WithBank(d: Dram, b: Option<BankState>): MemOutcome<Dram> {
    if b.None? then Failed(IllegalCommand) else Fine(d.(bank := b.value))
  }

  /** The command, if any, that the pending request needs next. */
  function Decide(d: Dram): MemOutcome<Dram>
    requires d.rowSize >= 1
  {
    if d.pending.None? then Fine(d)
    else
      var row := RowOf(d, d.pending.value);
      match d.bank
      case Idle =>
        WithBank(d.(misses := d.misses + 1, activated := true), IssueActivate(d.bank, row, d.timing.tRcd))
      case Active(open) =>
        if open == row then
          var d' := if d.activated then d else d.(hits := d.hits + 1);
          WithBank(d', if d.pending.value.Store? then IssueWrite(d.bank, row, d.timing.tCl)
                       else IssueRead(d.bank, row, d.timing.tCl))
        else WithBank(d, IssuePrecharge(d.bank, d.timing.tRp))
      case _ => Fine(d)
  }

  /** The column access of the pending request is over. */
  function CompletePending(d: Dram): MemOutcome<Dram> {
    if d.pending.None? then Failed(NoPendingRequest)
    else
      var req := d.pending.value;
      if req.addr + req.Len() > |d.data| then Failed(OutOfBounds)
      else Fine(d.(pending := None, activated := false, data := Write(d.data, req), finished := Some(Read(d.data, req))))
  }

  /** Decide, then advance the bank, then complete the request if its column access just ended. */
  function DramTick(d: Dram): MemOutcome<Dram>
    requires d.rowSize >= 1
  {
    match Decide(d)
    case Failed(p) => Failed(p)
    case Fine(d1) =>
      match Advance(d1.bank)
      case None => Failed(IllegalCommand)
      case Some((b, event)) =>
        var d2 := d1.(bank := b);
        if event.ReadFinished? || event.WriteFinished? then CompletePending(d2) else Fine(d2)
  }
}
