/** Memory requests (abstract_mem.rs) and what a client may assume of the memory below it: one flat byte array that
    performs an accepted request at some moment before it is seen done. */
module MemoryPort {
  import opened Words

  datatype Request = Load(addr: Word, len: nat) | Store(addr: Word, data: seq<Byte>)
  {
    function Len(): nat {
      if Load? then len else |data|
    }

    predicate InSpace() {
      addr + Len() <= TWO_32
    }
  }

  /** The effect of a request on a flat memory. */
  function Apply(view: Memory, req: Request): Memory {
    match req
    case Load(_, _) => view
    case Store(addr, data) => Patch(view, addr, data)
  }

  /** The bytes a finished request delivers: those loaded, or none for a store. */
  function Answer(view: Memory, req: Request): seq<Byte>
    requires req.InSpace()
  {
    match req
    case Load(addr, len) => view[addr..addr + len]
    case Store(_, _) => []
  }

  /** The one request a client may have outstanding: accepted but not performed, or performed. */
  datatype Slot = Free | Busy(req: Request) | Ready(req: Request, data: seq<Byte>)

  datatype Port = Port(view: Memory, slot: Slot)

  /** The memory performs the outstanding request. */
  function Performed(p: Port): Port {
    if p.slot.Busy? && p.slot.req.InSpace() then
      Port(Apply(p.view, p.slot.req), Ready(p.slot.req, Answer(p.view, p.slot.req)))
    else p
  }

  /** What may happen between two calls of the client: nothing, or the outstanding request is performed. */
  predicate MayBecome(p: Port, q: Port) {
    q == p || q == Performed(p)
  }
}
