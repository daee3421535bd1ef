/** What each instruction writes, instruction by instruction (chapters 2 and 7 of the RISC-V Unprivileged ISA manual): a
    second description of the machine of `Isa`, by bits, exact products, and quotients with remainders. */
module IsaTable {
  import opened Words
  import opened WordBits
  import opened Isa
  import opened UopProof
  import Uop

  predicate IsAnd(v: Word, x: Word, y: Word) {
    forall k: nat :: k < 32 ==> (BitAt(v, k) <==> BitAt(x, k) && BitAt(y, k))
  }

  predicate IsOr(v: Word, x: Word, y: Word) {
    forall k: nat :: k < 32 ==> (BitAt(v, k) <==> BitAt(x, k) || BitAt(y, k))
  }

  predicate IsXor(v: Word, x: Word, y: Word) {
    forall k: nat :: k < 32 ==> (BitAt(v, k) <==> (BitAt(x, k) <==> !BitAt(y, k)))
  }

  predicate IsShiftLeft(v: Word, x: Word, s: nat) {
    forall k: nat :: k < 32 ==> (BitAt(v, k) <==> k >= s && BitAt(x, k - s))
  }

  predicate IsShiftRight(v: Word, x: Word, s: nat) {
    forall k: nat :: k < 32 ==> (BitAt(v, k) <==> k + s < 32 && BitAt(x, k + s))
  }

  /** With copies of the sign bit moving in. */
  predicate IsShiftRightSigned(v: Word, x: Word, s: nat) {
    forall k: nat :: k < 32 ==> (BitAt(v, k) <==> BitAt(x, if k + s < 32 then k + s else 31))
  }

  /** What is left of the product below the high word is one word. */
  predicate IsHighWord(high: int, product: int) {
    0 <= product - high * 0x1_0000_0000 < 0x1_0000_0000
  }

  predicate Overflows(x: Word, y: Word) {
    x == 0x8000_0000 && y == 0xffff_ffff
  }

  /** The quotient `q` and remainder `r` of section 7.2: rounding toward zero, the remainder with the dividend's sign. */
  predicate IsDivision(q: Word, r: Word, x: Word, y: Word) {
    if y == 0 then q == 0xffff_ffff && r == x
    else if Overflows(x, y) then q == x && r == 0
    else
      && Signed(q) * Signed(y) + Signed(r) == Signed(x)
      && Magnitude(Signed(r)) < Magnitude(Signed(y))
      && (Signed(x) >= 0 ==> Signed(r) >= 0) && (Signed(x) <= 0 ==> Signed(r) <= 0)
  }

  predicate IsUnsignedDivision(q: Word, r: Word, x: Word, y: Word) {
    if y == 0 then q == 0xffff_ffff && r == x else q * y + r == x && r < y
  }

  /** The value of `n` bytes of memory. */
  function Loaded(m: Memory, addr: Word, n: nat): nat {
    FromLe(BytesAt(m, addr, n))
  }

  /** `v` is what the instruction writes to rd, with `x` and `y` in its source registers. */
  ghost predicate Writes(i: Inst, pc: Word, x: Word, y: Word, m: Memory, v: Word) {
    var addr := (x + i.imm) % 0x1_0000_0000;
    match i.op
    case Lui => v == i.imm
    case Auipc => v == (pc + i.imm) % 0x1_0000_0000
    case Jal => v == (pc + 4) % 0x1_0000_0000
    case Jalr => v == (pc + 4) % 0x1_0000_0000
    case Lb => var b := Loaded(m, addr, 1); v == if b < 0x80 then b else b + 0xffff_ff00
    case Lh => var h := Loaded(m, addr, 2); v == if h < 0x8000 then h else h + 0xffff_0000
    case Lw => v == Loaded(m, addr, 4)
    case Lbu => v == Loaded(m, addr, 1)
    case Lhu => v == Loaded(m, addr, 2)
    case Addi => v == (x + i.imm) % 0x1_0000_0000
    case Slti => v == if Signed(x) < Signed(i.imm) then 1 else 0
    case Sltiu => v == if x < i.imm then 1 else 0
    case Xori => IsXor(v, x, i.imm)
    case Ori => IsOr(v, x, i.imm)
    case Andi => IsAnd(v, x, i.imm)
    case Slli => IsShiftLeft(v, x, i.imm % 32)
    case Srli => IsShiftRight(v, x, i.imm % 32)
    case Srai => IsShiftRightSigned(v, x, i.imm % 32)
    case Add => v == (x + y) % 0x1_0000_0000
    case Sub => (v + y) % 0x1_0000_0000 == x
    case Sll => IsShiftLeft(v, x, y % 32)
    case Slt => v == if Signed(x) < Signed(y) then 1 else 0
    case Sltu => v == if x < y then 1 else 0
    case Xor => IsXor(v, x, y)
    case Srl => IsShiftRight(v, x, y % 32)
    case Sra => IsShiftRightSigned(v, x, y % 32)
    case Or => IsOr(v, x, y)
    case And => IsAnd(v, x, y)
    case Mul => v == (x * y) % 0x1_0000_0000
    case Mulh => IsHighWord(Signed(v), Signed(x) * Signed(y))
    case Mulhsu => IsHighWord(Signed(v), Signed(x) * y)
    case Mulhu => IsHighWord(v, x * y)
    case Div => exists r :: IsDivision(v, r, x, y)
    case Divu => exists r :: IsUnsignedDivision(v, r, x, y)
    case Rem => exists q :: IsDivision(q, v, x, y)
    case Remu => exists q :: IsUnsignedDivision(q, v, x, y)
    case _ => false
  }

  predicate WritesNothing(op: Op) {
    op.Beq? || op.Bne? || op.Blt? || op.Bge? || op.Bltu? || op.Bgeu? || op.Sb? || op.Sh? || op.Sw?
    || op.Fence? || op.Ecall? || op.Illegal?
  }

  // ---------- The operators ----------

  lemma BitwiseRows(x: Word, y: Word)
    ensures IsAnd(Words.And(x, y), x, y) && IsOr(Words.Or(x, y), x, y) && IsXor(Words.Xor(x, y), x, y)
  {
    hide BitAt, Words.And, Words.Or, Words.Xor;
    forall k: nat | k < 32
      ensures BitAt(Words.And(x, y), k) <==> BitAt(x, k) && BitAt(y, k)
      ensures BitAt(Words.Or(x, y), k) <==> BitAt(x, k) || BitAt(y, k)
      ensures BitAt(Words.Xor(x, y), k) <==> (BitAt(x, k) <==> !BitAt(y, k))
    {
      BitwiseMeaning(x, y, k);
    }
  }

  lemma ShiftRows(x: Word, s: nat)
    requires s < 32
    ensures IsShiftLeft(Wrap(x * Pow2(s)), x, s)
    ensures IsShiftRight(Wrap(x / Pow2(s)), x, s)
    ensures IsShiftRightSigned(Wrap(Signed(x) / Pow2(s)), x, s)
  {
    hide BitAt, Pow2, Wrap, Signed;
    forall k: nat | k < 32
      ensures BitAt(Wrap(x * Pow2(s)), k) <==> k >= s && BitAt(x, k - s)
      ensures BitAt(Wrap(x / Pow2(s)), k) <==> k + s < 32 && BitAt(x, k + s)
      ensures BitAt(Wrap(Signed(x) / Pow2(s)), k) <==> BitAt(x, if k + s < 32 then k + s else 31)
    {
      ShiftMeaning(x, s, k);
    }
  }

  lemma ProductRows(x: Word, y: Word)
    ensures IsHighWord(Signed(Isa.Compute(Mulh, x, y)), Signed(x) * Signed(y))
    ensures IsHighWord(Signed(Isa.Compute(Mulhsu, x, y)), Signed(x) * y)
    ensures IsHighWord(Isa.Compute(Mulhu, x, y), x * y)
  {
    hide Uop.AluResult, Isa.Compute, Signed;
    SameResult(Mulh);
    SameResult(Mulhsu);
    SameResult(Mulhu);
    SignedProduct(x, y);
    MixedProduct(x, y);
    UnsignedProduct(x, y);
  }

  /** The multiplier and divider, by the names the ALU has for them. */
  lemma SameResult(op: Op)
    requires IsMul(op) || IsDiv(op)
    ensures forall x, y :: Isa.Compute(op, x, y) == Uop.AluResult(AluName(op), x, y)
  {
    hide Uop.AluResult, Isa.Compute;
    forall x: Word, y: Word
      ensures Isa.Compute(op, x, y) == Uop.AluResult(AluName(op), x, y)
    {
      MAluMatchesIsa(op, x, y);
    }
  }

  function AluName(op: Op): Uop.AluOp
    requires IsMul(op) || IsDiv(op)
  {
    match op
    case Mul => Uop.AluMul
    case Mulh => Uop.AluMulh
    case Mulhsu => Uop.AluMulhsu
    case Mulhu => Uop.AluMulhu
    case Div => Uop.AluDiv
    case Divu => Uop.AluDivu
    case Rem => Uop.AluRem
    case Remu => Uop.AluRemu
  }

  lemma DivisionRows(x: Word, y: Word)
    ensures IsDivision(Isa.Compute(Div, x, y), Isa.Compute(Rem, x, y), x, y)
    ensures IsUnsignedDivision(Isa.Compute(Divu, x, y), Isa.Compute(Remu, x, y), x, y)
  {
    hide Uop.AluResult, Isa.Compute, Signed;
    SameResult(Div);
    SameResult(Rem);
    SameResult(Divu);
    SameResult(Remu);
    SignedDivision(x, y);
    UnsignedDivision(x, y);
    SignedExtremes(x);
    SignedExtremes(y);
    SignedExtremes(Isa.Compute(Div, x, y));
  }

  lemma SignedExtremes(w: Word)
    ensures Signed(w) == -TWO_31 <==> w == 0x8000_0000
    ensures Signed(w) == -1 <==> w == 0xffff_ffff
  {}

  lemma LoadRows(m: Memory, addr: Word)
    ensures var b := Loaded(m, addr, 1);
            && LoadValue(m, Load(addr, ByteWide, true)) == (if b < 0x80 then b else b + 0xffff_ff00)
            && LoadValue(m, Load(addr, ByteWide, false)) == b
    ensures var h := Loaded(m, addr, 2);
            && LoadValue(m, Load(addr, HalfWide, true)) == (if h < 0x8000 then h else h + 0xffff_0000)
            && LoadValue(m, Load(addr, HalfWide, false)) == h
    ensures LoadValue(m, Load(addr, WordWide, false)) == Loaded(m, addr, 4)
  {
    hide Extend, FromLe, BytesAt, Loaded, Pow256, Wrap;
    LoadedBounds(m, addr);
    RawLoad(m, addr);
    ByteExtends(true, Loaded(m, addr, 1));
    ByteExtends(false, Loaded(m, addr, 1));
    HalfExtends(true, Loaded(m, addr, 2));
    HalfExtends(false, Loaded(m, addr, 2));
    WordExtends(false, Loaded(m, addr, 4));
    Wraps(Loaded(m, addr, 1), 0x100);
    Wraps(Loaded(m, addr, 2), 0x1_0000);
    Wraps(Loaded(m, addr, 4), 0);
  }

  lemma RawLoad(m: Memory, addr: Word)
    ensures forall signed :: LoadValue(m, Load(addr, ByteWide, signed)) == Extend(ByteWide, signed, Loaded(m, addr, 1))
    ensures forall signed :: LoadValue(m, Load(addr, HalfWide, signed)) == Extend(HalfWide, signed, Loaded(m, addr, 2))
    ensures forall signed :: LoadValue(m, Load(addr, WordWide, signed)) == Extend(WordWide, signed, Loaded(m, addr, 4))
  {
    hide Extend, FromLe, BytesAt;
  }

  lemma Wraps(v: nat, p: nat)
    requires v < TWO_32 && p < TWO_32
    ensures Wrap(v) == v && (v < p ==> Wrap(v - p) == v + (TWO_32 - p))
  {}

  lemma LoadedBounds(m: Memory, addr: Word)
    ensures Loaded(m, addr, 1) < 0x100 && Loaded(m, addr, 2) < 0x1_0000 && Loaded(m, addr, 4) < TWO_32
  {
    LoadedBound(m, addr, 1);
    LoadedBound(m, addr, 2);
    LoadedBound(m, addr, 4);
    hide Loaded;
    assert Pow256(1) == 256 && Pow256(2) == 0x1_0000 && Pow256(3) == 0x100_0000 && Pow256(4) == TWO_32;
  }

  lemma LoadedBound(m: Memory, addr: Word, n: nat)
    ensures Loaded(m, addr, n) < Pow256(n)
  {
    var bytes := BytesAt(m, addr, n);
    FromLeBound(bytes);
    Pow256Monotone(|bytes|, n);
  }

  lemma {:induction false} Pow256Monotone(a: nat, b: nat)
    requires a <= b
    ensures Pow256(a) <= Pow256(b)
  {
    if a < b {
      Pow256Monotone(a, b - 1);
    }
  }

  // ---------- The table ----------

  lemma RegisterRow(i: Inst, pc: Word, x: Word, y: Word, m: Memory)
    requires IsRegister(i.op) && !IsMul(i.op) && !IsDiv(i.op)
    ensures Writes(i, pc, x, y, m, Isa.Compute(i.op, x, y)) && !WritesNothing(i.op)
  {
    hide IsAnd, IsOr, IsXor, IsShiftLeft, IsShiftRight, IsShiftRightSigned, Signed, Words.And, Words.Or, Words.Xor, Pow2, Loaded;
    BitwiseRows(x, y);
    ShiftRows(x, y % 32);
    Differs(x, y);
  }

  lemma Differs(x: Word, y: Word)
    ensures (Wrap(x - y) + y) % 0x1_0000_0000 == x
  {}

  lemma ImmediateRow(i: Inst, pc: Word, x: Word, y: Word, m: Memory)
    requires IsImmediate(i.op)
    ensures Writes(i, pc, x, y, m, Isa.Compute(RegisterForm(i.op), x, i.imm)) && !WritesNothing(i.op)
  {
    hide IsAnd, IsOr, IsXor, IsShiftLeft, IsShiftRight, IsShiftRightSigned, Signed, Words.And, Words.Or, Words.Xor, Pow2, Loaded;
    BitwiseRows(x, i.imm);
    ShiftRows(x, i.imm % 32);
  }

  lemma MulDivRow(i: Inst, pc: Word, x: Word, y: Word, m: Memory)
    requires IsMul(i.op) || IsDiv(i.op)
    ensures Writes(i, pc, x, y, m, Isa.Compute(i.op, x, y)) && !WritesNothing(i.op)
  {
    hide IsDivision, IsUnsignedDivision, IsHighWord, Signed, Loaded;
    LowWord(x, y);
    ProductRows(x, y);
    DivisionRows(x, y);
    hide Isa.Compute;
  }

  lemma LowWord(x: Word, y: Word)
    ensures Isa.Compute(Mul, x, y) == (x * y) % 0x1_0000_0000
  {}

  lemma LoadRow(i: Inst, pc: Word, x: Word, y: Word, m: Memory)
    requires IsLoad(i.op)
    ensures var a := AccessOf(i, x, y);
            a.Some? && a.value.Load? && Writes(i, pc, x, y, m, LoadValue(m, a.value)) && !WritesNothing(i.op)
  {
    hide Loaded, LoadValue;
    LoadRows(m, Wrap(x + i.imm));
  }

  lemma OtherRow(i: Inst, pc: Word, x: Word, y: Word, m: Memory)
    requires !IsLoad(i.op) && !IsRegister(i.op) && !IsImmediate(i.op)
    ensures var w := RegWrite(i, pc, x, y, m);
            if WritesNothing(i.op) then w.None?
            else w.Some? && w.value.rd == i.rd && Writes(i, pc, x, y, m, w.value.value)
  {
    hide Loaded, LoadValue, Isa.Compute;
  }

  /** Which of the four writes it is. */
  lemma WriteOf(i: Inst, pc: Word, x: Word, y: Word, m: Memory)
    ensures IsLoad(i.op) ==> AccessOf(i, x, y).Some? && AccessOf(i, x, y).value.Load?
    ensures var w := RegWrite(i, pc, x, y, m);
            && (IsLoad(i.op) ==> w == Some(Write(i.rd, LoadValue(m, AccessOf(i, x, y).value))))
            && (IsRegister(i.op) ==> w == Some(Write(i.rd, Isa.Compute(i.op, x, y))))
            && (IsImmediate(i.op) ==> w == Some(Write(i.rd, Isa.Compute(RegisterForm(i.op), x, i.imm))))
  {
    hide LoadValue, Isa.Compute, RegisterForm;
  }

  /** Every instruction writes what its row says, and nothing if it has no row. */
  lemma InstructionWrites(i: Inst, pc: Word, x: Word, y: Word, m: Memory)
    ensures var w := RegWrite(i, pc, x, y, m);
            if WritesNothing(i.op) then w.None?
            else w.Some? && w.value.rd == i.rd && Writes(i, pc, x, y, m, w.value.value)
  {
    hide RegWrite, Writes, Isa.Compute, WritesNothing, RegisterForm, AccessOf, LoadValue;
    WriteOf(i, pc, x, y, m);
    if IsLoad(i.op) {
      LoadRow(i, pc, x, y, m);
    } else if IsMul(i.op) || IsDiv(i.op) {
      MulDivRow(i, pc, x, y, m);
    } else if IsRegister(i.op) {
      RegisterRow(i, pc, x, y, m);
    } else if IsImmediate(i.op) {
      ImmediateRow(i, pc, x, y, m);
    } else {
      OtherRow(i, pc, x, y, m);
    }
  }
}
