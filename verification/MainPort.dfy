/** Both main memories are the same flat memory to their clients, and both are ports. */
module MainPort {
  import opened Words
  import opened MemoryPort
  import opened MainMemory
  import opened DramProof

  // ---------- Functional equivalence ----------

  /** Serving a list of requests on a plain byte array. */
  function ServeFlat(data: seq<Byte>, reqs: seq<Request>): (seq<seq<Byte>>, seq<Byte>)
    requires InBounds(reqs, |data|)
    decreases |reqs|
  {
    if |reqs| == 0 then ([], data)
    else
      var (answers, final) := ServeFlat(Write(data, reqs[0]), reqs[1..]);
      ([Read(data, reqs[0])] + answers, final)
  }

  /** What SimpleMem asserts of every address it is given. */
  predicate InSimpleMem(reqs: seq<Request>) {
    forall i :: 0 <= i < |reqs| ==> reqs[i].addr < MEM_SIZE
  }

  /** SimpleMem takes exactly the requests that start in its 256 KiB, one at a time, and refuses the others by its
      assertion. */
  lemma SimpleMemTakes(m: SimpleMem, req: Request)
    ensures SimpleRegister(m, req).Failed? <==> req.addr >= 0x4_0000
    ensures req.addr < 0x4_0000 ==> (SimpleRegister(m, req).value.0 <==> m.pending.None?)
  {}

  function RunSimple(m: SimpleMem): (nat, SimpleMem)
    requires m.pending.Some? && m.pending.value.addr + m.pending.value.Len() <= |m.data|
    decreases m.countdown
  {
    var e := SimpleTick(m).value;
    if e.pending.None? then (1, e)
    else
      var (n, f) := RunSimple(e);
      (n + 1, f)
  }

  /** A request to SimpleMem takes one tick more than its countdown. */
  lemma {:induction false} RunSimpleLaw(m: SimpleMem)
    requires m.pending.Some? && m.pending.value.addr + m.pending.value.Len() <= |m.data|
    ensures var (n, e) := RunSimple(m);
            && n == m.countdown + 1
            && e.pending.None? && e.data == Write(m.data, m.pending.value)
            && e.finished == Some(Read(m.data, m.pending.value))
            && e.loads == m.loads && e.stores == m.stores
    decreases m.countdown
  {
    if m.countdown > 0 {
      RunSimpleLaw(m.(countdown := m.countdown - 1));
    }
  }

  function ServeSimple(m: SimpleMem, reqs: seq<Request>): Served<SimpleMem>
    requires m.pending.None? && InBounds(reqs, |m.data|) && InSimpleMem(reqs)
    decreases |reqs|
  {
    if |reqs| == 0 then Served(0, [], m)
    else
      var r := SimpleRegister(m, reqs[0]).value.1;
      RunSimpleLaw(r);
      var (n, e) := RunSimple(r);
      var rest := ServeSimple(e, reqs[1..]);
      Served(n + rest.ticks, [e.finished.value] + rest.answers, rest.memory)
  }

  function Loads(reqs: seq<Request>): (n: nat)
    ensures n <= |reqs|
  {
    if |reqs| == 0 then 0 else (if reqs[0].Load? then 1 else 0) + Loads(reqs[1..])
  }

  /** SimpleMem serves requests as a plain byte array does, in sixteen ticks each, and counts them. */
  lemma {:induction false} SimpleServesFlat(m: SimpleMem, reqs: seq<Request>)
    requires m.pending.None? && InBounds(reqs, |m.data|) && InSimpleMem(reqs)
    ensures var s := ServeSimple(m, reqs);
            && (s.answers, s.memory.data) == ServeFlat(m.data, reqs)
            && s.ticks == 16 * |reqs|
            && s.memory.loads == m.loads + Loads(reqs)
            && s.memory.stores == m.stores + (|reqs| - Loads(reqs))
    decreases |reqs|
  {
    if |reqs| > 0 {
      var r := SimpleRegister(m, reqs[0]).value.1;
      RunSimpleLaw(r);
      var (n, e) := RunSimple(r);
      SimpleServesFlat(e, reqs[1..]);
      hide RunSimple;
    }
  }

  /** The DRAM controller serves requests as a plain byte array does. */
  lemma {:induction false} DramServesFlat(d: Dram, reqs: seq<Request>)
    requires DramOk(d) && d.pending.None? && InBounds(reqs, |d.data|)
    ensures var s := ServeDram(d, reqs);
            (s.answers, s.memory.data) == ServeFlat(d.data, reqs)
    decreases |reqs|
  {
    if |reqs| > 0 {
      var r := DramRegister(d, reqs[0]).value.1;
      RunToDoneLaw(r);
      var (n, e) := RunToDone(r);
      DramServesFlat(e, reqs[1..]);
      hide RunToDone;
    }
  }

  /** The DRAM controller is a drop-in replacement for the flat memory: same answers, same final contents. */
  lemma DramReplacesSimpleMem(data: seq<Byte>, timing: Timing, rowSize: nat, reqs: seq<Request>)
    requires TimingOk(timing) && rowSize >= 1 && InBounds(reqs, |data|) && InSimpleMem(reqs)
    ensures DramOk(NewDram(data, timing, rowSize))
    ensures var dram, simple := ServeDram(NewDram(data, timing, rowSize), reqs), ServeSimple(NewSimpleMem(data), reqs);
            dram.answers == simple.answers && dram.memory.data == simple.memory.data
  {
    DramServesFlat(NewDram(data, timing, rowSize), reqs);
    SimpleServesFlat(NewSimpleMem(data), reqs);
    hide ServeDram, ServeSimple, ServeFlat;
  }

  // ---------- Ports ----------

  datatype Main = SimpleMain(simple: SimpleMem) | DramMain(dram: Dram)
  {
    function Data(): seq<Byte> {
      if SimpleMain? then simple.data else dram.data
    }

    function Pending(): Option<Request> {
      if SimpleMain? then simple.pending else dram.pending
    }

    function Finished(): Option<seq<Byte>> {
      if SimpleMain? then simple.finished else dram.finished
    }
  }

  predicate MainOk(m: Main) {
    && |m.Data()| <= TWO_32
    && (m.Pending().Some? ==> m.Finished().None?)
    && (m.DramMain? ==> DramOk(m.dram))
  }

  function MainRegister(m: Main, req: Request): MemOutcome<(bool, Main)> {
    match m
    case SimpleMain(s) =>
      (match SimpleRegister(s, req)
       case Failed(p) => Failed(p)
       case Fine((ok, s')) => Fine((ok, SimpleMain(s'))))
    case DramMain(d) =>
      (match DramRegister(d, req)
       case Failed(p) => Failed(p)
       case Fine((ok, d')) => Fine((ok, DramMain(d'))))
  }

  function MainTick(m: Main): MemOutcome<Main>
    requires MainOk(m)
  {
    match m
    case SimpleMain(s) =>
      (match SimpleTick(s)
       case Failed(p) => Failed(p)
       case Fine(s') => Fine(SimpleMain(s')))
    case DramMain(d) =>
      (match DramTick(d)
       case Failed(p) => Failed(p)
       case Fine(d') => Fine(DramMain(d')))
  }

  /** The contents as a memory over the whole address space; beyond them the memory aborts, so nothing is read. */
  function Padded(data: seq<Byte>): (m: Memory)
    requires |data| <= TWO_32
    ensures forall a :: 0 <= a < TWO_32 ==> m[a] == if a < |data| then data[a] else 0
  {
    seq(TWO_32, a requires 0 <= a < TWO_32 => if a < |data| then data[a] else 0)
  }

  /** The memory as a client sees it whose latest accepted request is `req`, if it has one outstanding. */
  function MainAsPort(m: Main, req: Option<Request>): Port
    requires MainOk(m)
  {
    Port(Padded(m.Data()),
         if req.None? then Free
         else if m.Pending() == req then Busy(req.value)
         else if m.Pending().None? && m.Finished().Some? then Ready(req.value, m.Finished().value)
         else Free)
  }

  lemma PaddedRead(data: seq<Byte>, req: Request)
    requires |data| <= TWO_32 && req.addr + req.Len() <= |data|
    ensures req.InSpace() && Read(data, req) == Answer(Padded(data), req)
    ensures Padded(Write(data, req)) == Apply(Padded(data), req)
  {
    if req.Load? {
      var x, y := data[req.addr..req.addr + req.len], Padded(data)[req.addr..req.addr + req.len];
      assert |x| == |y| && forall k :: 0 <= k < |x| ==> x[k] == y[k];
    } else {
      var x, y := Padded(Write(data, req)), Apply(Padded(data), req);
      assert |x| == |y| && forall k :: 0 <= k < |x| ==> x[k] == y[k];
    }
  }

  /** Registration puts the request into a free slot, or is refused while another is pending. */
  lemma MainRegisterIsPortStep(m: Main, req: Request)
    requires MainOk(m) && MainRegister(m, req).Fine?
    ensures var (ok, m') := MainRegister(m, req).value;
            && MainOk(m')
            && (ok <==> m.Pending().None?)
            && (ok ==> MainAsPort(m', Some(req)) == Port(Padded(m.Data()), Busy(req)))
            && (!ok ==> m' == m)
  {
    hide RowOf;
    if m.DramMain? && m.dram.pending.None? {
      RestingDram(m.dram, req);
    }
  }

  lemma RestingDram(d: Dram, req: Request)
    requires DramOk(d) && d.pending.None? && req.addr + req.Len() <= |d.data|
    ensures DramOk(DramRegister(d, req).value.1)
  {}

  /** A tick is nothing, or the outstanding request being performed. */
  lemma MainTickIsPortStep(m: Main, req: Request)
    requires MainOk(m) && MainTick(m).Fine? && MainAsPort(m, Some(req)).slot != Free
    ensures MainOk(MainTick(m).value)
    ensures MayBecome(MainAsPort(m, Some(req)), MainAsPort(MainTick(m).value, Some(req)))
  {
    match m {
      case SimpleMain(s) =>
        if s.pending.Some? && s.countdown == 0 {
          PaddedRead(s.data, s.pending.value);
        }
      case DramMain(d) =>
        DramTickKeeps(d);
        if d.pending.Some? && Remaining(d) == 1 {
          PaddedRead(d.data, d.pending.value);
        }
    }
    hide DramTick, Remaining, BankOk, Padded, Read, Write;
  }

  /** Without an outstanding request a tick changes nothing a client could see. */
  lemma MainTickAtRest(m: Main)
    requires MainOk(m) && MainTick(m).Fine? && m.Pending().None?
    ensures MainTick(m).value == m
  {
    if m.DramMain? {
      DramTickKeeps(m.dram);
    }
  }
}
