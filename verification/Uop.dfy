/** The micro-operation carried from stage to stage (uop.rs), its decoding (decode.rs) and its execution
    (execute.rs). */
module Uop {
  import opened Words
  import opened Isa

  datatype AluOp =
    | AluAdd | AluSll | AluSlt | AluSltu | AluXor | AluSrl | AluOr | AluAnd | AluSub | AluSra
    | AluMul | AluMulh | AluMulhu | AluMulhsu | AluDiv | AluDivu | AluRem | AluRemu

  datatype OperandOne = RegRs1 | CurrentPc | Zero
  datatype OperandTwo = RegRs2 | Immediate

  /** A source register and the value read for it so far. */
  datatype Source = Source(reg: Reg, value: Word)

  datatype Prediction = Prediction(taken: bool, addr: Word)

  datatype MicroOp = MicroOp(
    inst: Inst,
    pc: Word,
    rs1: Option<Source>,
    rs2: Option<Source>,
    immediate: Word,
    aluOp: AluOp,
    op1: OperandOne,
    op2: OperandTwo,
    aluResult: Word,
    resultToRd: bool,
    rd: Option<Reg>,
    rdValue: Option<Word>,
    predicted: Option<Prediction>,
    placeholder: bool)
  {
    /** The access of a load or store in MEM; a store takes its value from rs2. */
    function MemoryAccess(): Option<Access> {
      match inst.op
      case Lb => Some(Load(aluResult, ByteWide, true))
      case Lh => Some(Load(aluResult, HalfWide, true))
      case Lw => Some(Load(aluResult, WordWide, false))
      case Lbu => Some(Load(aluResult, ByteWide, false))
      case Lhu => Some(Load(aluResult, HalfWide, false))
      case Sb => Some(Store(aluResult, ByteWide, ValueOf(rs2)))
      case Sh => Some(Store(aluResult, HalfWide, ValueOf(rs2)))
      case Sw => Some(Store(aluResult, WordWide, ValueOf(rs2)))
      case _ => None
    }

    predicate IsLoadOp() {
      MemoryAccess().Some? && MemoryAccess().value.Load?
    }

    function Writeback(): Option<Write> {
      if rd.Some? && rdValue.Some? then Some(Write(rd.value, rdValue.value)) else None
    }
  }

  function ValueOf(s: Option<Source>): Word {
    if s.Some? then s.value.value else 0
  }

  function Fetched(inst: Inst, pc: Word, predicted: Option<Prediction>): MicroOp {
    MicroOp(inst, pc, None, None, 0, AluAdd, RegRs1, RegRs2, 0, false, None, None, predicted, false)
  }

  /** The bubble put into EXE on a load-use hazard: `addi x0, x0, 0` that is never counted as retired. */
  const BUBBLE: MicroOp :=
    Fetched(Inst(Addi, 0, 0, 0, 0), 0xffff_ffff, None).(
    rs1 := Some(Source(0, 0)), rs2 := Some(Source(0, 0)), placeholder := true)

  // ---------- Decode ----------

  function AluOpOf(op: Op): AluOp {
    match RegisterForm(op)
    case Add => AluAdd
    case Sub => AluSub
    case Sll => AluSll
    case Slt => AluSlt
    case Sltu => AluSltu
    case Xor => AluXor
    case Srl => AluSrl
    case Sra => AluSra
    case Or => AluOr
    case And => AluAnd
    case Mul => AluMul
    case Mulh => AluMulh
    case Mulhu => AluMulhu
    case Mulhsu => AluMulhsu
    case Div => AluDiv
    case Divu => AluDivu
    case Rem => AluRem
    case Remu => AluRemu
    case _ => AluAdd
  }

  /** Decode of a legal instruction whose source registers hold `x` and `y`. */
  function DecodeWith(f: MicroOp, x: Word, y: Word): MicroOp {
    var i := f.inst;
    var s1, s2 := Some(Source(i.rs1, x)), Some(Source(i.rs2, y));
    if IsRegister(i.op) then
      f.(rs1 := s1, rs2 := s2, rd := Some(i.rd), resultToRd := true,
         op1 := RegRs1, op2 := RegRs2, aluOp := AluOpOf(i.op))
    else if IsImmediate(i.op) then
      f.(rs1 := s1, immediate := i.imm, rd := Some(i.rd), resultToRd := true,
         op1 := RegRs1, op2 := Immediate, aluOp := AluOpOf(i.op))
    else if IsLoad(i.op) then
      f.(rs1 := s1, immediate := i.imm, rd := Some(i.rd), op1 := RegRs1, op2 := Immediate, aluOp := AluAdd)
    else if IsStore(i.op) then
      f.(rs1 := s1, rs2 := s2, immediate := i.imm, op1 := RegRs1, op2 := Immediate, aluOp := AluAdd)
    else if IsBranch(i.op) then
      f.(rs1 := s1, rs2 := s2, immediate := i.imm, op1 := CurrentPc, op2 := Immediate, aluOp := AluAdd)
    else if i.op.Jal? then
      f.(immediate := i.imm, rd := Some(i.rd), rdValue := Some(Wrap(f.pc + 4)),
         op1 := CurrentPc, op2 := Immediate, aluOp := AluAdd)
    else if i.op.Jalr? then
      f.(rs1 := s1, immediate := i.imm, rd := Some(i.rd), rdValue := Some(Wrap(f.pc + 4)),
         op1 := RegRs1, op2 := Immediate, aluOp := AluAdd)
    else if i.op.Lui? then
      f.(immediate := i.imm, rd := Some(i.rd), resultToRd := true, op1 := Zero, op2 := Immediate, aluOp := AluAdd)
    else if i.op.Auipc? then
      f.(immediate := i.imm, rd := Some(i.rd), resultToRd := true, op1 := CurrentPc, op2 := Immediate, aluOp := AluAdd)
    else f
  }

  /** Decode against the register file; illegal words and FENCE are errors. */
  function Decode(f: MicroOp, regs: RegFile): Option<MicroOp> {
    if IsLegal(f.inst.op) then Some(DecodeWith(f, regs[f.inst.rs1], regs[f.inst.rs2])) else None
  }

  // ---------- Execute ----------

  const MUL_STALL: nat := 8
  const DIV_REM_STALL: nat := 32

  function MExtensionStall(op: Op): Option<nat> {
    if IsMul(op) then Some(MUL_STALL)
    else if IsDiv(op) then Some(DIV_REM_STALL)
    else None
  }

  /** The operands of the ALU, or None where the code would unwrap a missing register value. */
  function AluOperands(op: MicroOp): Option<(Word, Word)> {
    var a := match op.op1
      case RegRs1 => if op.rs1.Some? then Some(op.rs1.value.value) else None
      case CurrentPc => Some(op.pc)
      case Zero => Some(0);
    var b := match op.op2
      case RegRs2 => if op.rs2.Some? then Some(op.rs2.value.value) else None
      case Immediate => Some(op.immediate);
    if a.Some? && b.Some? then Some((a.value, b.value)) else None
  }

  /** The ALU in the host's arithmetic: products and quotients are taken in 64 bits and cut down. */
  function AluResult(op: AluOp, a: Word, b: Word): Word {
    match op
    case AluAdd => Wrap(a + b)
    case AluSub => Wrap(a - b)
    case AluSll => Wrap(a * Pow2(b % 32))
    case AluSlt => Bit(Signed(a) < Signed(b))
    case AluSltu => Bit(a < b)
    case AluXor => Words.Xor(a, b)
    case AluSrl => Wrap(a / Pow2(b % 32))
    case AluSra => Wrap(Signed(a) / Pow2(b % 32))
    case AluOr => Words.Or(a, b)
    case AluAnd => Words.And(a, b)
    case AluMul => Wrap(Signed(a) * Signed(b))
    case AluMulh => Wrap((Signed(a) * Signed(b)) / TWO_32)
    case AluMulhu => Wrap((a * b) / TWO_32)
    case AluMulhsu => Wrap((Signed(a) * b) / TWO_32)
    case AluDiv => if b != 0 then Wrap(TruncDiv(Signed(a), Signed(b))) else 0xffff_ffff
    case AluDivu => if b != 0 then (UnsignedFits(a, b); a / b) else 0xffff_ffff
    case AluRem => if b != 0 then Wrap(WrappingRem(Signed(a), Signed(b))) else a
    case AluRemu => if b != 0 then (UnsignedFits(a, b); a % b) else a
  }

  /** `i32::wrapping_rem`: the remainder of truncating division, 0 for the one overflowing pair. */
  function WrappingRem(a: int, b: int): int
    requires b != 0
  {
    if b == -1 then 0
    else if a >= 0 then a % b
    else -((-a) % b)
  }

  function BranchTaken(op: Op, x: Word, y: Word): Option<bool> {
    match op
    case Jal => Some(true)
    case Jalr => Some(true)
    case Beq => Some(x == y)
    case Bne => Some(x != y)
    case Blt => Some(Signed(x) < Signed(y))
    case Bge => Some(Signed(x) >= Signed(y))
    case Bltu => Some(x < y)
    case Bgeu => Some(x >= y)
    case _ => None
  }

  /** What the recovery logic looks at for a control-transfer instruction. */
  datatype Resolution = Resolution(pc: Word, predicted: Prediction, target: Word)
  {
    predicate NeedsRecovery(taken: bool) {
      predicted.taken != taken || (taken && predicted.addr != target)
    }

    function Destination(taken: bool): Word {
      if taken then target else Wrap(pc + 4)
    }
  }

  /** The pc fetched after an op, going by its prediction. */
  function PredictedNext(op: MicroOp): Word {
    if op.predicted.Some? && op.predicted.value.taken then op.predicted.value.addr else Wrap(op.pc + 4)
  }

  /** The loaded register value, from exactly the bytes of the access. */
  function LoadedValue(a: Access, bytes: seq<Byte>): Word
    requires a.Load? && |bytes| == Len(a.width)
  {
    var value := FromLe(bytes);
    match (a.width, a.signed)
    case (ByteWide, true) => Wrap(if value % 256 >= 128 then value % 256 - 256 else value % 256)
    case (HalfWide, true) => Wrap(if value % 0x1_0000 >= 0x8000 then value % 0x1_0000 - 0x1_0000 else value % 0x1_0000)
    case _ => Wrap(value)
  }

  /** The ALU half of EXE: compute, and latch the result as rd's value where decode asked for it. */
  function Compute(op: MicroOp, a: Word, b: Word): MicroOp {
    var r := AluResult(op.aluOp, a, b);
    if op.resultToRd then op.(aluResult := r, rdValue := Some(r)) else op.(aluResult := r)
  }
}
