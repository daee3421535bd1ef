/** The RV32IM instruction set as a machine that executes one whole instruction at a time.
    It is the reference the pipeline is compared with, so it follows the RISC-V Unprivileged ISA
    manual (version 20191213), sections 2.2 to 2.6 and 7.1 to 7.2, and shares no datapath with the pipeline. */
module Isa {
  import opened Words

  type Reg = r: nat | r < 32
  type RegFile = s: seq<Word> | |s| == 32 witness seq(32, i => 0)

  datatype Opcode = OpReg | OpImm | OpLoad | OpStore | OpBranch | OpJal | OpJalr | OpLui | OpAuipc | OpMiscMem | OpSystem

  datatype Op =
    | Lui | Auipc | Jal | Jalr
    | Beq | Bne | Blt | Bge | Bltu | Bgeu
    | Lb | Lh | Lw | Lbu | Lhu
    | Sb | Sh | Sw
    | Addi | Slti | Sltiu | Xori | Ori | Andi | Slli | Srli | Srai
    | Add | Sub | Sll | Slt | Sltu | Xor | Srl | Sra | Or | And
    | Mul | Mulh | Mulhsu | Mulhu | Div | Divu | Rem | Remu
    | Fence | Ecall
    | Illegal(opcode: Option<Opcode>)

  /** A fetched word split into fields. `rs1` and `rs2` are bits 19..15 and 24..20 of the word whatever
      its format, `rd` is bits 11..7, and `imm` is the sign-extended immediate of the format of `op`. */
  datatype Inst = Inst(op: Op, rd: Reg, rs1: Reg, rs2: Reg, imm: Word)

  predicate IsBranch(op: Op) {
    op.Beq? || op.Bne? || op.Blt? || op.Bge? || op.Bltu? || op.Bgeu?
  }

  predicate IsControl(op: Op) {
    op.Jal? || op.Jalr? || IsBranch(op)
  }

  predicate IsLoad(op: Op) {
    op.Lb? || op.Lh? || op.Lw? || op.Lbu? || op.Lhu?
  }

  predicate IsStore(op: Op) {
    op.Sb? || op.Sh? || op.Sw?
  }

  predicate IsImmediate(op: Op) {
    op.Addi? || op.Slti? || op.Sltiu? || op.Xori? || op.Ori? || op.Andi? || op.Slli? || op.Srli? || op.Srai?
  }

  predicate IsMul(op: Op) {
    op.Mul? || op.Mulh? || op.Mulhsu? || op.Mulhu?
  }

  predicate IsDiv(op: Op) {
    op.Div? || op.Divu? || op.Rem? || op.Remu?
  }

  predicate IsRegister(op: Op) {
    op.Add? || op.Sub? || op.Sll? || op.Slt? || op.Sltu? || op.Xor? || op.Srl? || op.Sra? || op.Or? || op.And? || IsMul(op) || IsDiv(op)
  }

  predicate IsLegal(op: Op) {
    !op.Illegal? && !op.Fence?
  }

  predicate UsesRs1(op: Op) {
    IsRegister(op) || IsImmediate(op) || IsLoad(op) || IsStore(op) || IsBranch(op) || op.Jalr?
  }

  predicate UsesRs2(op: Op) {
    IsRegister(op) || IsStore(op) || IsBranch(op)
  }

  // ---------- Integer computation ----------

  /** Division rounding toward zero. */
  function TruncDiv(a: int, b: int): int
    requires b != 0
  {
    if a >= 0 then a / b else -((-a) / b)
  }

  /** The register form of an immediate instruction. */
  function RegisterForm(op: Op): Op {
    match op
    case Addi => Add
    case Slti => Slt
    case Sltiu => Sltu
    case Xori => Xor
    case Ori => Or
    case Andi => And
    case Slli => Sll
    case Srli => Srl
    case Srai => Sra
    case _ => op
  }

  function Bit(b: bool): Word {
    if b then 1 else 0
  }

  function Quotient(x: Word, y: Word): Word {
    if y == 0 then TWO_32 - 1
    else if Signed(x) == -TWO_31 && Signed(y) == -1 then x
    else Wrap(TruncDiv(Signed(x), Signed(y)))
  }

  function Remainder(x: Word, y: Word): Word {
    if y == 0 then x
    else if Signed(x) == -TWO_31 && Signed(y) == -1 then 0
    else Wrap(Signed(x) - Signed(y) * TruncDiv(Signed(x), Signed(y)))
  }

  /** Result of a register-register instruction, from the manual. */
  function Compute(op: Op, x: Word, y: Word): Word {
    match op
    case Add => Wrap(x + y)
    case Sub => Wrap(x - y)
    case Sll => Wrap(x * Pow2(y % 32))
    case Slt => Bit(Signed(x) < Signed(y))
    case Sltu => Bit(x < y)
    case Xor => Words.Xor(x, y)
    case Srl => Wrap(x / Pow2(y % 32))
    case Sra => Wrap(Signed(x) / Pow2(y % 32))
    case Or => Words.Or(x, y)
    case And => Words.And(x, y)
    case Mul => Wrap(x * y)
    case Mulh => Wrap((Signed(x) * Signed(y)) / TWO_32)
    case Mulhsu => Wrap((Signed(x) * y) / TWO_32)
    case Mulhu => Wrap((x * y) / TWO_32)
    case Div => Quotient(x, y)
    case Divu => if y == 0 then TWO_32 - 1 else (UnsignedFits(x, y); x / y)
    case Rem => Remainder(x, y)
    case Remu => if y == 0 then x else (UnsignedFits(x, y); x % y)
    case _ => 0
  }

  // ---------- Control transfer ----------

  predicate Taken(op: Op, x: Word, y: Word) {
    match op
    case Jal => true
    case Jalr => true
    case Beq => x == y
    case Bne => x != y
    case Blt => Signed(x) < Signed(y)
    case Bge => Signed(x) >= Signed(y)
    case Bltu => x < y
    case Bgeu => x >= y
    case _ => false
  }

  /** The target address; JALR clears the low bit of the sum (section 2.5). */
  function Target(i: Inst, pc: Word, x: Word): Word {
    if i.op.Jalr? then Wrap(x + i.imm) / 2 * 2 else Wrap(pc + i.imm)
  }

  function NextPc(i: Inst, pc: Word, x: Word, y: Word): Word {
    if Taken(i.op, x, y) then Target(i, pc, x) else Wrap(pc + 4)
  }

  // ---------- Loads and stores ----------

  datatype Width = ByteWide | HalfWide | WordWide

  datatype Access =
    | Load(addr: Word, width: Width, signed: bool)
    | Store(addr: Word, width: Width, value: Word)

  function Len(w: Width): (n: nat)
    ensures n in {1, 2, 4}
  {
    match w
    case ByteWide => 1
    case HalfWide => 2
    case WordWide => 4
  }

  predicate Aligned(a: Access) {
    a.addr % Len(a.width) == 0
  }

  function AccessOf(i: Inst, x: Word, y: Word): Option<Access> {
    var addr := Wrap(x + i.imm);
    match i.op
    case Lb => Some(Load(addr, ByteWide, true))
    case Lh => Some(Load(addr, HalfWide, true))
    case Lw => Some(Load(addr, WordWide, false))
    case Lbu => Some(Load(addr, ByteWide, false))
    case Lhu => Some(Load(addr, HalfWide, false))
    case Sb => Some(Store(addr, ByteWide, y))
    case Sh => Some(Store(addr, HalfWide, y))
    case Sw => Some(Store(addr, WordWide, y))
    case _ => None
  }

  /** The bytes a load reads; an aligned access never runs past the end of the address space. */
  function BytesAt(m: Memory, addr: Word, n: nat): seq<Byte> {
    if addr + n <= |m| then m[addr..addr + n] else m[addr..]
  }

  /** The register value of a load, from the value of its bytes. */
  function Extend(width: Width, signed: bool, raw: nat): Word {
    var bits := 8 * Len(width);
    var v := raw % Pow2(bits);
    if signed && v >= Pow2(bits - 1) then Wrap(v - Pow2(bits)) else Wrap(v)
  }

  function LoadValue(m: Memory, a: Access): Word
    requires a.Load?
  {
    Extend(a.width, a.signed, FromLe(BytesAt(m, a.addr, Len(a.width))))
  }

  function Perform(m: Memory, a: Access): Memory {
    match a
    case Load(_, _, _) => m
    case Store(addr, width, value) => Patch(m, addr, ToLe(value, Len(width)))
  }

  // ---------- The machine ----------

  datatype Write = Write(rd: Reg, value: Word)

  function WriteReg(regs: RegFile, w: Option<Write>): RegFile {
    if w.Some? && w.value.rd != 0 then regs[w.value.rd := w.value.value] else regs
  }

  /** Architectural state. `accesses` lists the loads and stores performed so far, oldest first;
      `halted` is set by an ECALL with a0 = 0; `trapped` freezes a machine whose next instruction has no
      RV32IM effect: an illegal word, FENCE, or a misaligned fetch or data address. */
  datatype Arch = Arch(pc: Word, regs: RegFile, mem: Memory, accesses: seq<Access>, halted: bool, trapped: bool)

  function RegWrite(i: Inst, pc: Word, x: Word, y: Word, m: Memory): Option<Write> {
    var access := AccessOf(i, x, y);
    if access.Some? then
      if access.value.Load? then Some(Write(i.rd, LoadValue(m, access.value))) else None
    else if IsRegister(i.op) then Some(Write(i.rd, Compute(i.op, x, y)))
    else if IsImmediate(i.op) then Some(Write(i.rd, Compute(RegisterForm(i.op), x, i.imm)))
    else if i.op.Lui? then Some(Write(i.rd, i.imm))
    else if i.op.Auipc? then Some(Write(i.rd, Wrap(pc + i.imm)))
    else if i.op.Jal? || i.op.Jalr? then Some(Write(i.rd, Wrap(pc + 4)))
    else None
  }

  type Program = Word -> Inst

  predicate Traps(code: Program, a: Arch) {
    var i := code(a.pc);
    || a.pc % 4 != 0
    || !IsLegal(i.op)
    || (var access := AccessOf(i, a.regs[i.rs1], a.regs[i.rs2]);
        access.Some? && !Aligned(access.value))
  }

  function Step(code: Program, a: Arch): Arch {
    if a.trapped || Traps(code, a) then
      a.(trapped := true)
    else
      var i := code(a.pc);
      var x, y := a.regs[i.rs1], a.regs[i.rs2];
      var access := AccessOf(i, x, y);
      Arch(NextPc(i, a.pc, x, y),
           WriteReg(a.regs, RegWrite(i, a.pc, x, y, a.mem)),
           if access.Some? then Perform(a.mem, access.value) else a.mem,
           if access.Some? then a.accesses + [access.value] else a.accesses,
           a.halted || (i.op.Ecall? && a.regs[10] == 0),
           false)
  }

  function Initial(pc: Word, m: Memory): Arch {
    Arch(pc, seq(32, i => 0), m, [], false, false)
  }

  /** The state after `k` instructions. */
  function After(code: Program, start: Arch, k: nat): Arch {
    if k == 0 then start else Step(code, After(code, start, k - 1))
  }
}
