/** The main memories as the source runs them: objects that count down and write their byte array in place. Each
    method is proved equal to the function of the same name. */
module MemoryUnits {
  import opened Words
  import opened MemoryPort
  import M = MainMemory

  /** The bytes of a request at `addr` copied into the array. */
  method CopyInto(data: array<Byte>, addr: nat, bytes: seq<Byte>)
    requires addr + |bytes| <= data.Length
    modifies data
    ensures data[..] == Patch(old(data[..]), addr, bytes)
  {
    forall i | 0 <= i < |bytes| {
      data[addr + i] := bytes[i];
    }
  }

  class SimpleMem {
    const data: array<Byte>
    var pending: Option<Request>
    var countdown: nat
    var loads: nat
    var stores: nat
    var finished: Option<seq<Byte>>

    ghost function View(): M.SimpleMem
      reads this, data
    {
      M.SimpleMem(data[..], pending, countdown, loads, stores, finished)
    }

    constructor (bytes: seq<Byte>)
      ensures fresh(data) && View() == M.NewSimpleMem(bytes)
    {
      data := new Byte[|bytes|](i requires 0 <= i < |bytes| => bytes[i]);
      pending, countdown, loads, stores, finished := None, M.MAIN_MEM_LATENCY, 0, 0, None;
      new;
      assert data[..] == bytes;
    }

    ghost predicate Did(o: M.MemOutcome<M.SimpleMem>, panic: Option<M.MemPanic>)
      reads this, data
    {
      match o
      case Fine(m) => panic.None? && View() == m
      case Failed(p) => panic == Some(p)
    }

    method TryRegister(req: Request) returns (accepted: bool, panic: Option<M.MemPanic>)
      modifies this
      ensures match M.SimpleRegister(old(View()), req)
              case Fine(r) => accepted == r.0 && Did(M.Fine(r.1), panic)
              case Failed(p) => panic == Some(p)
    {
      if req.addr >= M.MEM_SIZE {
        return false, Some(M.OutOfBounds);
      }
      if pending.Some? {
        return false, None;
      }
      if req.Load? {
        loads := loads + 1;
      } else {
        stores := stores + 1;
      }
      pending, countdown, finished := Some(req), M.MAIN_MEM_LATENCY, None;
      return true, None;
    }

    method Tick() returns (panic: Option<M.MemPanic>)
      modifies this, data
      ensures Did(M.SimpleTick(old(View())), panic)
    {
      if pending.None? {
        return None;
      }
      if countdown > 0 {
        countdown := countdown - 1;
        return None;
      }
      var req := pending.value;
      if req.addr + req.Len() > data.Length {
        return Some(M.OutOfBounds);
      }
      pending := None;
      if req.Load? {
        finished := Some(data[req.addr..req.addr + req.len]);
      } else {
        CopyInto(data, req.addr, req.data);
        finished := Some([]);
      }
      panic := None;
    }
  }

  /** One DRAM bank. A command returns false where the source's assertion fails. */
  class Bank {
    var state: M.BankState

    constructor ()
      ensures state == M.Idle
    {
      state := M.Idle;
    }

    method Activate(row: nat, t: nat) returns (legal: bool)
      modifies this
      ensures (if legal then Some(state) else None) == M.IssueActivate(old(state), row, t)
      ensures !legal ==> state == old(state)
    {
      legal := state.Idle? && t >= 1;
      if legal {
        state := M.Activating(row, t);
      }
    }

    method Precharge(t: nat) returns (legal: bool)
      modifies this
      ensures (if legal then Some(state) else None) == M.IssuePrecharge(old(state), t)
      ensures !legal ==> state == old(state)
    {
      legal := state.Active? && t >= 1;
      if legal {
        state := M.Precharging(t);
      }
    }

    method Read(row: nat, t: nat) returns (legal: bool)
      modifies this
      ensures (if legal then Some(state) else None) == M.IssueRead(old(state), row, t)
      ensures !legal ==> state == old(state)
    {
      legal := state.Active? && state.row == row && t >= 1;
      if legal {
        state := M.Reading(row, t);
      }
    }

    method Write(row: nat, t: nat) returns (legal: bool)
      modifies this
      ensures (if legal then Some(state) else None) == M.IssueWrite(old(state), row, t)
      ensures !legal ==> state == old(state)
    {
      legal := state.Active? && state.row == row && t >= 1;
      if legal {
        state := M.Writing(row, t);
      }
    }

    /** No result where the countdown would underflow. */
    method AdvanceOneCycle() returns (event: Option<M.BankEvent>)
      modifies this
      ensures match M.Advance(old(state))
              case Some(r) => event == Some(r.1) && state == r.0
              case None => event.None?
    {
      match state
      case Idle => return Some(M.NoEvent);
      case Active(_) => return Some(M.NoEvent);
      case Activating(row, n) =>
        if n == 0 { return None; }
        if n == 1 { state := M.Active(row); return Some(M.ActivationFinished); }
        state := M.Activating(row, n - 1);
        return Some(M.NoEvent);
      case Precharging(n) =>
        if n == 0 { return None; }
        if n == 1 { state := M.Idle; return Some(M.PrechargeFinished); }
        state := M.Precharging(n - 1);
        return Some(M.NoEvent);
      case Reading(row, n) =>
        if n == 0 { return None; }
        if n == 1 { state := M.Active(row); return Some(M.ReadFinished); }
        state := M.Reading(row, n - 1);
        return Some(M.NoEvent);
      case Writing(row, n) =>
        if n == 0 { return None; }
        if n == 1 { state := M.Active(row); return Some(M.WriteFinished); }
        state := M.Writing(row, n - 1);
        return Some(M.NoEvent);
    }
  }

  class SimpleDram {
    const data: array<Byte>
    const timing: M.Timing
    const rowSize: nat
    const bank: Bank
    var pending: Option<Request>
    var activated: bool
    var hits: nat
    var misses: nat
    var finished: Option<seq<Byte>>

    ghost function View(): M.Dram
      reads this, data, bank
    {
      M.Dram(data[..], timing, rowSize, bank.state, pending, activated, hits, misses, finished)
    }

    constructor (bytes: seq<Byte>, timing: M.Timing, rowSize: nat)
      requires M.TimingOk(timing) && rowSize >= 1
      ensures fresh(data) && fresh(bank) && View() == M.NewDram(bytes, timing, rowSize) && this.rowSize == rowSize
    {
      data := new Byte[|bytes|](i requires 0 <= i < |bytes| => bytes[i]);
      this.timing, this.rowSize := timing, rowSize;
      bank := new Bank();
      pending, activated, hits, misses, finished := None, false, 0, 0, None;
      new;
      assert data[..] == bytes;
    }

    ghost predicate Did(o: M.MemOutcome<M.Dram>, panic: Option<M.MemPanic>)
      reads this, data, bank
    {
      match o
      case Fine(d) => panic.None? && View() == d
      case Failed(p) => panic == Some(p)
    }

    method TryRegister(req: Request) returns (accepted: bool, panic: Option<M.MemPanic>)
      modifies this
      ensures match M.DramRegister(old(View()), req)
              case Fine(r) => accepted == r.0 && Did(M.Fine(r.1), panic)
              case Failed(p) => panic == Some(p)
    {
      if req.addr + req.Len() > data.Length {
        return false, Some(M.OutOfBounds);
      }
      if pending.Some? {
        return false, None;
      }
      pending, activated, finished := Some(req), false, None;
      return true, None;
    }

    /** Issue the command that the pending request needs next. */
    method Decide() returns (panic: Option<M.MemPanic>)
      requires rowSize >= 1
      modifies this, bank
      ensures Did(M.Decide(old(View())), panic)
      ensures data[..] == old(data[..])
    {
      if pending.None? {
        return None;
      }
      var row := pending.value.addr / rowSize;
      var legal := true;
      match bank.state {
        case Idle =>
          misses := misses + 1;
          activated := true;
          legal := bank.Activate(row, timing.tRcd);
        case Active(open) =>
          if open != row {
            legal := bank.Precharge(timing.tRp);
          } else {
            if !activated {
              hits := hits + 1;
            }
            if pending.value.Store? {
              legal := bank.Write(row, timing.tCl);
            } else {
              legal := bank.Read(row, timing.tCl);
            }
          }
        case _ =>
      }
      return if legal then None else Some(M.IllegalCommand);
    }

    method CompletePending() returns (panic: Option<M.MemPanic>)
      modifies this, data
      ensures Did(M.CompletePending(old(View())), panic)
    {
      if pending.None? {
        return Some(M.NoPendingRequest);
      }
      var req := pending.value;
      if req.addr + req.Len() > data.Length {
        return Some(M.OutOfBounds);
      }
      pending, activated := None, false;
      if req.Load? {
        finished := Some(data[req.addr..req.addr + req.len]);
      } else {
        CopyInto(data, req.addr, req.data);
        finished := Some([]);
      }
      panic := None;
    }

    /** Decide, advance the bank by one cycle, and complete the request when its column access ends. */
    method Tick() returns (panic: Option<M.MemPanic>)
      requires rowSize >= 1
      modifies this, data, bank
      ensures Did(M.DramTick(old(View())), panic)
    {
      panic := Decide();
      if panic.Some? {
        return;
      }
      var event := bank.AdvanceOneCycle();
      match event {
        case None => panic := Some(M.IllegalCommand);
        case Some(e) =>
          if e.ReadFinished? || e.WriteFinished? {
            panic := CompletePending();
          }
      }
    }
  }
}
