/** Timing, command legality and functional behaviour of the main memories. */
module DramProof {
  import opened Words
  import opened MemoryPort
  import opened MainMemory

  // ---------- The bank ----------

  /** What a bank refuses by its assertions: a row is opened only in an idle bank, closed only when it is open, and read
      or written only while it is the open one; and nothing is done in no time. */
  lemma BankRefuses(b: BankState, row: nat, t: nat)
    ensures IssueActivate(b, row, t).None? <==> t == 0 || b != Idle
    ensures IssuePrecharge(b, t).None? <==> t == 0 || forall open :: b != Active(open)
    ensures IssueRead(b, row, t).None? <==> t == 0 || b != Active(row)
    ensures IssueWrite(b, row, t).None? <==> t == 0 || b != Active(row)
  {}

  // ---------- The controller's invariant ----------

  /** The bank works for the pending request, and rests when there is none. */
  predicate BankOk(d: Dram)
    requires d.rowSize >= 1
  {
    match d.bank
    case Idle => d.pending.Some? ==> !d.activated
    case Active(row) => d.activated ==> d.pending.Some? && row == RowOf(d, d.pending.value)
    case Activating(row, n) => n >= 1 && d.activated && d.pending.Some? && row == RowOf(d, d.pending.value)
    case Precharging(n) => n >= 1 && !d.activated && d.pending.Some?
    case Reading(row, n) => n >= 1 && d.pending.Some? && d.pending.value.Load? && row == RowOf(d, d.pending.value)
    case Writing(row, n) => n >= 1 && d.pending.Some? && d.pending.value.Store? && row == RowOf(d, d.pending.value)
  }

  predicate DramOk(d: Dram) {
    && TimingOk(d.timing) && d.rowSize >= 1
    && BankOk(d)
    && (d.pending.Some? ==> d.pending.value.addr + d.pending.value.Len() <= |d.data| && d.finished.None?)
  }

  /** The ticks the pending request still needs. */
  function Remaining(d: Dram): nat
    requires d.rowSize >= 1 && d.pending.Some?
  {
    match d.bank
    case Idle => d.timing.tRcd + d.timing.tCl
    case Activating(_, n) => n + d.timing.tCl
    case Active(row) =>
      if row == RowOf(d, d.pending.value) then d.timing.tCl
      else d.timing.tRp + d.timing.tRcd + d.timing.tCl
    case Precharging(n) => n + d.timing.tRcd + d.timing.tCl
    case Reading(_, n) => n
    case Writing(_, n) => n
  }

  /** Whether the pending request is still going to be counted as a row miss. */
  predicate WillMiss(d: Dram)
    requires d.rowSize >= 1 && d.pending.Some?
  {
    match d.bank
    case Idle => true
    case Precharging(_) => true
    case Active(row) => row != RowOf(d, d.pending.value)
    case _ => false
  }

  /** Whether it is still going to be counted as a row hit. */
  predicate WillHit(d: Dram)
    requires d.rowSize >= 1 && d.pending.Some?
  {
    d.bank == Active(RowOf(d, d.pending.value)) && !d.activated
  }

  /** One tick brings a pending request exactly one tick nearer its end, and then performs it with its row left
      open; without a request nothing moves. */
  predicate TickLaw(d: Dram, e: Dram)
    requires DramOk(d)
  {
    && DramOk(e) && e.timing == d.timing && e.rowSize == d.rowSize && |e.data| == |d.data|
    && (d.pending.None? ==> e == d)
    && (d.pending.Some? ==>
          var req := d.pending.value;
          if Remaining(d) == 1 then
            && e.pending.None? && e.bank == Active(RowOf(d, req))
            && e.data == Write(d.data, req) && e.finished == Some(Read(d.data, req))
            && e.misses == d.misses && e.hits == d.hits + (if WillHit(d) then 1 else 0)
          else
            && e.pending == d.pending && e.data == d.data && e.finished == d.finished
            && Remaining(e) == Remaining(d) - 1
            && e.misses + (if WillMiss(e) then 1 else 0) == d.misses + (if WillMiss(d) then 1 else 0)
            && e.hits + (if WillHit(e) then 1 else 0) == d.hits + (if WillHit(d) then 1 else 0))
  }

  /** A tick that issues a command: the bank is at rest when a request is pending. */
  lemma CommandTick(d: Dram)
    requires DramOk(d) && d.pending.Some? && (d.bank.Idle? || d.bank.Active?)
    ensures DramTick(d).Fine? && TickLaw(d, DramTick(d).value)
  {
    hide RowOf, Read, Write;
    SameRow(d, d.pending.value);
  }

  lemma SameRow(d: Dram, req: Request)
    requires d.rowSize >= 1
    ensures forall e: Dram :: e.rowSize == d.rowSize ==> RowOf(e, req) == RowOf(d, req)
  {}

  /** No command assertion ever fires, and a tick does what the law says. */
  lemma DramTickKeeps(d: Dram)
    requires DramOk(d)
    ensures DramTick(d).Fine? && TickLaw(d, DramTick(d).value)
  {
    if d.pending.Some? {
      SameRow(d, d.pending.value);
      if d.bank.Idle? || d.bank.Active? {
        CommandTick(d);
        hide DramTick, TickLaw;
      } else {
        CountdownTick(d);
        hide DramTick, TickLaw;
      }
    }
  }

  lemma CountdownTick(d: Dram)
    requires DramOk(d) && d.pending.Some? && !d.bank.Idle? && !d.bank.Active?
    ensures DramTick(d).Fine? && TickLaw(d, DramTick(d).value)
  {
    hide RowOf, Read, Write;
    SameRow(d, d.pending.value);
  }

  // ---------- Running one request to completion ----------

  /** Tick until the pending request is done; the count of ticks and the final state. */
  function RunToDone(d: Dram): (nat, Dram)
    requires DramOk(d) && d.pending.Some?
    decreases Remaining(d)
  {
    DramTickKeeps(d);
    var e := DramTick(d).value;
    if e.pending.None? then (1, e)
    else
      var (n, f) := RunToDone(e);
      (n + 1, f)
  }

  /** The exact latency of a request, and everything it leaves: tCL for an open row, tRCD + tCL from an idle bank,
      tRP + tRCD + tCL for another row. */
  lemma {:induction false} RunToDoneLaw(d: Dram)
    requires DramOk(d) && d.pending.Some?
    ensures var (n, e) := RunToDone(d);
            var req := d.pending.value;
            && n == Remaining(d)
            && DramOk(e) && e.pending.None? && e.bank == Active(RowOf(d, req))
            && e.timing == d.timing && e.rowSize == d.rowSize
            && e.data == Write(d.data, req) && e.finished == Some(Read(d.data, req))
            && e.misses == d.misses + (if WillMiss(d) then 1 else 0)
            && e.hits == d.hits + (if WillHit(d) then 1 else 0)
    decreases Remaining(d)
  {
    DramTickKeeps(d);
    var e := DramTick(d).value;
    hide DramTick;
    if e.pending.Some? {
      RunToDoneLaw(e);
    }
  }

  // ---------- Requests back to back ----------

  predicate InBounds(reqs: seq<Request>, size: nat) {
    forall i :: 0 <= i < |reqs| ==> reqs[i].addr + reqs[i].Len() <= size
  }

  datatype Served<T> = Served(ticks: nat, answers: seq<seq<Byte>>, memory: T)

  /** Register each request as soon as the one before is done, and run it to completion. */
  function ServeDram(d: Dram, reqs: seq<Request>): Served<Dram>
    requires DramOk(d) && d.pending.None? && InBounds(reqs, |d.data|)
    decreases |reqs|
  {
    if |reqs| == 0 then Served(0, [], d)
    else
      var r := DramRegister(d, reqs[0]).value.1;
      RunToDoneLaw(r);
      var (n, e) := RunToDone(r);
      var rest := ServeDram(e, reqs[1..]);
      Served(n + rest.ticks, [e.finished.value] + rest.answers, rest.memory)
  }

  /** How many requests go to another row than the one before them; the first counts if `open` says so. */
  function RowChanges(open: Option<nat>, reqs: seq<Request>, rowSize: nat): nat
    requires rowSize >= 1
    decreases |reqs|
  {
    if |reqs| == 0 then 0
    else (if open == Some(reqs[0].addr / rowSize) then 0 else 1)
         + RowChanges(Some(reqs[0].addr / rowSize), reqs[1..], rowSize)
  }

  function OpenRow(d: Dram): Option<nat> {
    if d.bank.Active? then Some(d.bank.row) else None
  }

  /** The cycles of `n` column accesses, with `acts` rows activated and `pres` precharged. */
  function TimeOf(t: Timing, n: nat, acts: nat, pres: nat): int {
    n * t.tCl + acts * t.tRcd + pres * t.tRp
  }

  lemma Scale(n: nat, k: nat)
    ensures (n + 1) * k == n * k + k
  {}

  /** The DRAM time law from any resting state: every request pays tCL, every row change tRCD, and every row change
      that finds a row open tRP as well. */
  lemma {:induction false} DramTimeLaw(d: Dram, reqs: seq<Request>)
    requires DramOk(d) && d.pending.None? && InBounds(reqs, |d.data|)
    requires d.bank.Idle? || d.bank.Active?
    ensures var s := ServeDram(d, reqs);
            var changes := RowChanges(OpenRow(d), reqs, d.rowSize);
            var cold := if d.bank.Idle? && |reqs| > 0 then 1 else 0;
            && changes >= cold
            && s.memory.misses == d.misses + changes
            && s.memory.hits == d.hits + (|reqs| - changes)
            && s.ticks == TimeOf(d.timing, |reqs|, changes, changes - cold)
    decreases |reqs|
  {
    if |reqs| == 0 {
      NothingServed(d);
      assert reqs == [];
      hide *;
    } else {
      hide *;
      FirstServed(d, reqs);
      var r := DramRegister(d, reqs[0]).value.1;
      var e := RunToDone(r).1;
      DramTimeLaw(e, reqs[1..]);
      AddFirst(|reqs| - 1, RowChanges(OpenRow(e), reqs[1..], d.rowSize), OpenRow(d) != Some(RowOf(d, reqs[0])), d.bank.Active?,
               d.timing);
    }
  }

  lemma NothingServed(d: Dram)
    requires DramOk(d) && d.pending.None? && InBounds([], |d.data|)
    ensures var s := ServeDram(d, []);
            && RowChanges(OpenRow(d), [], d.rowSize) == 0
            && s.memory.misses == d.misses && s.memory.hits == d.hits && s.ticks == TimeOf(d.timing, 0, 0, 0)
  {}

  /** Serving the first request and then the others, and what the first one adds. */
  lemma FirstServed(d: Dram, reqs: seq<Request>)
    requires DramOk(d) && d.pending.None? && InBounds(reqs, |d.data|) && (d.bank.Idle? || d.bank.Active?) && |reqs| > 0
    ensures var r := DramRegister(d, reqs[0]).value.1;
            && DramOk(r) && r.pending.Some?
            && var e, changes := RunToDone(r).1, OpenRow(d) != Some(RowOf(d, reqs[0]));
               && DramOk(e) && e.pending.None? && InBounds(reqs[1..], |e.data|) && e.bank == Active(RowOf(d, reqs[0]))
               && e.timing == d.timing && e.rowSize == d.rowSize
               && e.misses == d.misses + (if changes then 1 else 0) && e.hits == d.hits + (if changes then 0 else 1)
               && RowChanges(OpenRow(d), reqs, d.rowSize) ==
                    (if changes then 1 else 0) + RowChanges(OpenRow(e), reqs[1..], d.rowSize)
               && ServeDram(d, reqs).memory == ServeDram(e, reqs[1..]).memory
               && ServeDram(d, reqs).ticks ==
                    d.timing.tCl + (if changes then d.timing.tRcd else 0)
                    + (if changes && d.bank.Active? then d.timing.tRp else 0) + ServeDram(e, reqs[1..]).ticks
  {
    var r := DramRegister(d, reqs[0]).value.1;
    FirstCost(d, reqs[0]);
    RunToDoneLaw(r);
    hide RunToDone, Remaining, BankOk, WillMiss, WillHit, Read, Write;
  }

  lemma AddFirst(n: nat, rest: nat, changes: bool, open: bool, t: Timing)
    requires !open ==> changes
    ensures var all, cold := if changes then rest + 1 else rest, if open then 0 else 1;
            TimeOf(t, n, rest, rest)
            + t.tCl + (if changes then t.tRcd else 0) + (if changes && open then t.tRp else 0)
            == TimeOf(t, n + 1, all, all - cold)
  {
    Scale(n, t.tCl);
    Scale(rest, t.tRcd);
    Scale(rest, t.tRp);
  }

  /** What the next request costs a resting controller. */
  lemma FirstCost(d: Dram, req: Request)
    requires DramOk(d) && d.pending.None? && (d.bank.Idle? || d.bank.Active?) && req.addr + req.Len() <= |d.data|
    ensures var r := DramRegister(d, req).value.1;
            var changes := OpenRow(d) != Some(RowOf(d, req));
            && DramOk(r) && r == d.(pending := Some(req), activated := false, finished := None)
            && WillMiss(r) == changes && WillHit(r) == !changes
            && Remaining(r) == d.timing.tCl + (if changes then d.timing.tRcd else 0)
                               + (if changes && d.bank.Active? then d.timing.tRp else 0)
  {}

  /** For a fresh controller: misses are one more than the adjacent requests in different rows, hits are the other
      requests, and the time is n tCL + misses tRCD + (misses - 1) tRP. */
  lemma FreshDramTimeLaw(data: seq<Byte>, timing: Timing, rowSize: nat, reqs: seq<Request>)
    requires TimingOk(timing) && rowSize >= 1 && |reqs| >= 1 && InBounds(reqs, |data|)
    ensures DramOk(NewDram(data, timing, rowSize))
    ensures var s := ServeDram(NewDram(data, timing, rowSize), reqs);
            var differing := |Differing(reqs, rowSize, |reqs|)|;
            && s.memory.misses == 1 + differing
            && s.memory.hits == |reqs| - s.memory.misses
            && s.ticks == |reqs| * timing.tCl + s.memory.misses * timing.tRcd + (s.memory.misses - 1) * timing.tRp
  {
    hide ServeDram, Differing, InBounds, DramOk;
    FreshLaw(data, timing, rowSize, reqs);
  }

  lemma FreshLaw(data: seq<Byte>, timing: Timing, rowSize: nat, reqs: seq<Request>)
    requires TimingOk(timing) && rowSize >= 1 && |reqs| >= 1 && InBounds(reqs, |data|)
    ensures DramOk(NewDram(data, timing, rowSize))
    ensures var s := ServeDram(NewDram(data, timing, rowSize), reqs);
            && s.memory.misses == 1 + |Differing(reqs, rowSize, |reqs|)|
            && s.memory.hits == |reqs| - s.memory.misses
            && s.ticks == TimeOf(timing, |reqs|, s.memory.misses, s.memory.misses - 1)
  {
    hide ServeDram, Remaining, TimeOf, RowChanges, Differing, InBounds;
    DramTimeLaw(NewDram(data, timing, rowSize), reqs);
    ColdChanges(reqs, rowSize);
  }

  lemma ColdChanges(reqs: seq<Request>, rowSize: nat)
    requires rowSize >= 1 && |reqs| >= 1
    ensures RowChanges(None, reqs, rowSize) == 1 + |Differing(reqs, rowSize, |reqs|)|
  {
    hide Differing;
    CountChanges(reqs, rowSize, |reqs|);
    ChangesFrom(reqs, rowSize, 0);
    assert reqs[0 + 1..] == reqs[1..];
  }

  /** Row changes among the first `n` requests, counted from the front. */
  function ChangesUpTo(reqs: seq<Request>, rowSize: nat, n: nat): nat
    requires rowSize >= 1 && 1 <= n <= |reqs|
  {
    if n == 1 then 0
    else ChangesUpTo(reqs, rowSize, n - 1)
         + (if Changes(reqs, rowSize, n - 1) then 1 else 0)
  }

  predicate Changes(reqs: seq<Request>, rowSize: nat, i: int)
    requires rowSize >= 1 && 1 <= i < |reqs|
  {
    reqs[i].addr / rowSize != reqs[i - 1].addr / rowSize
  }

  /** The positions, among the first `n`, of requests that go to another row than the one before them. */
  function Differing(reqs: seq<Request>, rowSize: nat, n: nat): set<int>
    requires rowSize >= 1 && n <= |reqs|
  {
    set i | 1 <= i < n && Changes(reqs, rowSize, i)
  }

  lemma {:induction false} CountChanges(reqs: seq<Request>, rowSize: nat, n: nat)
    requires rowSize >= 1 && 1 <= n <= |reqs|
    ensures |Differing(reqs, rowSize, n)| == ChangesUpTo(reqs, rowSize, n)
  {
    if n == 1 {
      assert Differing(reqs, rowSize, 1) == {};
    } else {
      CountChanges(reqs, rowSize, n - 1);
      var smaller := Differing(reqs, rowSize, n - 1);
      hide Changes;
      if Changes(reqs, rowSize, n - 1) {
        assert Differing(reqs, rowSize, n) == smaller + {n - 1};
      } else {
        assert Differing(reqs, rowSize, n) == smaller;
      }
    }
  }

  lemma {:induction false} ChangesFrom(reqs: seq<Request>, rowSize: nat, k: nat)
    requires rowSize >= 1 && k < |reqs|
    ensures RowChanges(Some(reqs[k].addr / rowSize), reqs[k + 1..], rowSize) + ChangesUpTo(reqs, rowSize, k + 1)
            == ChangesUpTo(reqs, rowSize, |reqs|)
    decreases |reqs| - k
  {
    if k + 1 < |reqs| {
      ChangesFrom(reqs, rowSize, k + 1);
      assert reqs[k + 1..][1..] == reqs[k + 2..];
    }
  }
}
