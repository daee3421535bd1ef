/** Decode followed by execute has the meaning of the instruction. */
module UopProof {
  import opened Words
  import opened Isa
  import opened Uop

  // ---------- The M extension ----------

  lemma SignedOffset(w: Word)
    ensures Signed(w) == w || Signed(w) == w - TWO_32
  {}

  lemma WrapShift(x: int, k: int)
    ensures Wrap(x + k * TWO_32) == Wrap(x)
  {}

  /** The low word of the signed product is the low word of the unsigned one. */
  lemma LowProduct(a: Word, b: Word)
    ensures Wrap(Signed(a) * Signed(b)) == Wrap(a * b)
  {
    SignedOffset(a);
    SignedOffset(b);
    var ka := if Signed(a) == a then 0 else -1;
    var kb := if Signed(b) == b then 0 else -1;
    assert Signed(a) == a + ka * TWO_32 && Signed(b) == b + kb * TWO_32;
    calc {
      Signed(a) * Signed(b);
      (a + ka * TWO_32) * (b + kb * TWO_32);
      a * b + (a * kb + ka * b + ka * kb * TWO_32) * TWO_32;
    }
    WrapShift(a * b, a * kb + ka * b + ka * kb * TWO_32);
  }

  lemma ProductBound(x: int, y: int, cx: int, cy: int)
    requires -cx <= x <= cx && -cy <= y <= cy && cx >= 0 && cy >= 0
    ensures -(cx * cy) <= x * y <= cx * cy
  {
    var ax, ay := if x < 0 then -x else x, if y < 0 then -y else y;
    MulMonotone(ax, cx, ay);
    MulMonotone(ay, cy, cx);
    SignedMagnitude(x, y);
  }

  lemma MulMonotone(x: nat, y: nat, k: nat)
    requires x <= y
    ensures 0 <= x * k <= y * k && x * k == k * x && y * k == k * y
  {
    var d := y - x;
    assert y * k == x * k + d * k;
    assert d * k >= 0;
  }

  lemma SignedMagnitude(x: int, y: int)
    ensures var ax, ay := if x < 0 then -x else x, if y < 0 then -y else y;
            x * y == ax * ay || x * y == -(ax * ay)
  {
    if x < 0 && y < 0 {
      MulFlip(x, y);
    } else if x < 0 {
      assert x * y == -((-x) * y);
    } else if y < 0 {
      assert x * y == -(x * (-y));
    }
  }

  const TWO_63: int := 0x8000_0000_0000_0000

  /** MULH with MUL forms the exact 64-bit product of two signed words (section 7.1), and the product
      does not leave the range of the host's 64-bit type. */
  lemma SignedProduct(a: Word, b: Word)
    ensures -TWO_63 <= Signed(a) * Signed(b) < TWO_63
    ensures Signed(AluResult(AluMulh, a, b)) * TWO_32 + AluResult(AluMul, a, b) == Signed(a) * Signed(b)
  {
    ProductBound(Signed(a), Signed(b), TWO_31, TWO_31);
    HighWord(Signed(a) * Signed(b));
  }

  /** MULHSU with MUL forms the exact product of a signed and an unsigned word. */
  lemma MixedProduct(a: Word, b: Word)
    ensures -TWO_63 <= Signed(a) * b < TWO_63
    ensures Signed(AluResult(AluMulhsu, a, b)) * TWO_32 + AluResult(AluMul, a, b) == Signed(a) * b
  {
    LowProduct(a, b);
    LowOfMixed(a, b);
    ProductBound(Signed(a), b, TWO_31, TWO_32 - 1);
    HighWord(Signed(a) * b);
  }

  /** MULHU with MUL forms the exact product of two unsigned words. */
  lemma UnsignedProduct(a: Word, b: Word)
    ensures AluResult(AluMulhu, a, b) * TWO_32 + AluResult(AluMul, a, b) == a * b
  {
    LowProduct(a, b);
    ProductBound(a, b, TWO_32 - 1, TWO_32 - 1);
    MulNonNegative(a, b);
    HighUnsigned(a * b);
  }

  lemma MulNonNegative(a: int, b: int)
    requires a >= 0 && b >= 0
    ensures a * b >= 0
  {}

  lemma HighUnsigned(p: int)
    requires 0 <= p < TWO_32 * TWO_32
    ensures Wrap(p / TWO_32) * TWO_32 + Wrap(p) == p
  {}

  lemma LowOfMixed(a: Word, b: Word)
    ensures Wrap(Signed(a) * b) == Wrap(a * b)
  {
    SignedOffset(a);
    var ka := if Signed(a) == a then 0 else -1;
    assert Signed(a) * b == (a + ka * TWO_32) * b == a * b + (ka * b) * TWO_32;
    WrapShift(a * b, ka * b);
  }

  lemma HighWord(p: int)
    requires -TWO_63 <= p < TWO_63
    ensures Signed(Wrap(p / TWO_32)) * TWO_32 + Wrap(p) == p
  {}

  lemma TruncDivNegative(a: int, b: int)
    requires b < 0
    ensures TruncDiv(a, b) == -TruncDiv(a, -b)
  {
    if a >= 0 {
      assert a / b == -(a / -b);
    } else {
      assert (-a) / b == -((-a) / -b);
    }
  }

  lemma MulFlip(x: int, y: int)
    ensures x * y == (-x) * (-y)
  {}

  function Magnitude(x: int): nat {
    if x < 0 then -x else x
  }

  /** Truncating division: the remainder is smaller than the divisor and takes the dividend's sign. */
  lemma TruncDivSpec(a: int, b: int)
    requires b != 0
    ensures var r := a - b * TruncDiv(a, b);
            && (a >= 0 ==> 0 <= r) && (a <= 0 ==> r <= 0)
            && Magnitude(r) < Magnitude(b)
    decreases if b < 0 then 1 else 0
  {
    if b < 0 {
      TruncDivNegative(a, b);
      MulFlip(b, TruncDiv(a, b));
      TruncDivSpec(a, -b);
    } else if a >= 0 {
      assert a == b * (a / b) + a % b;
    } else {
      assert -a == b * ((-a) / b) + (-a) % b;
      assert b * -((-a) / b) == -(b * ((-a) / b));
    }
  }

  lemma WrappingRemIsRemainder(a: int, b: int)
    requires b != 0
    ensures WrappingRem(a, b) == a - b * TruncDiv(a, b)
  {
    if b == -1 {
      TruncDivNegative(a, b);
    } else {
      if a >= 0 {
        assert a == b * (a / b) + a % b;
      } else {
        assert -a == b * ((-a) / b) + (-a) % b;
        assert b * -((-a) / b) == -(b * ((-a) / b));
      }
    }
  }

  /** DIV and REM recombine modulo 2^32 for every operand pair, with the results section 7.2 fixes for a
      zero divisor and for the signed overflow; otherwise they are exact. */
  lemma SignedDivision(a: Word, b: Word)
    ensures var q, r := AluResult(AluDiv, a, b), AluResult(AluRem, a, b);
            && (b == 0 ==> Signed(q) == -1 && r == a)
            && (Signed(a) == -TWO_31 && Signed(b) == -1 ==> q == a && r == 0)
            && (b != 0 && !(Signed(a) == -TWO_31 && Signed(b) == -1) ==>
                  && Signed(q) * Signed(b) + Signed(r) == Signed(a)
                  && Magnitude(Signed(r)) < Magnitude(Signed(b))
                  && (Signed(a) >= 0 ==> Signed(r) >= 0) && (Signed(a) <= 0 ==> Signed(r) <= 0))
            && Wrap(Signed(q) * Signed(b) + Signed(r)) == a
  {
    var x, y := Signed(a), Signed(b);
    var q, r := AluResult(AluDiv, a, b), AluResult(AluRem, a, b);
    if y == 0 {
      assert b == 0;
    } else {
      WrappingRemIsRemainder(x, y);
      TruncDivSpec(x, y);
      QuotientRange(x, y);
      var t := TruncDiv(x, y);
      if x == -TWO_31 && y == -1 {
        assert q == a && r == 0;
        assert Signed(q) * y == TWO_31;
      } else {
        SignedOfWrap(t);
        SignedOfWrap(x - y * t);
        assert Signed(q) == t && Signed(r) == x - y * t;
        assert t * y == y * t;
      }
    }
  }

  lemma SignedOfWrap(x: int)
    requires -TWO_31 <= x < TWO_31
    ensures Signed(Wrap(x)) == x
  {}

  /** DIVU and REMU, likewise. */
  lemma UnsignedDivision(a: Word, b: Word)
    ensures var q, r := AluResult(AluDivu, a, b), AluResult(AluRemu, a, b);
            && (b == 0 ==> q == TWO_32 - 1 && r == a)
            && (b != 0 ==> q * b + r == a && r < b)
  {
    if b != 0 {
      UnsignedFits(a, b);
    }
  }

  lemma HalfProduct(n: nat, d: nat)
    requires d >= 2
    ensures 2 * (n / d) <= n
  {
    assert n == d * (n / d) + n % d;
    assert (d - 2) * (n / d) >= 0;
  }

  lemma QuotientMagnitude(n: nat, d: nat)
    requires d >= 1
    ensures 0 <= n / d <= n
    ensures d >= 2 && n > 0 ==> n / d < n
  {
    if d == 1 {
      assert n / d == n;
    } else {
      HalfProduct(n, d);
    }
  }

  /** A quotient of signed words is a signed word unless it is the one overflowing pair. */
  lemma QuotientRange(x: int, y: int)
    requires -TWO_31 <= x < TWO_31 && -TWO_31 <= y < TWO_31 && y != 0
    ensures -TWO_31 <= TruncDiv(x, y) <= TWO_31
    ensures TruncDiv(x, y) == TWO_31 <==> x == -TWO_31 && y == -1
  {
    if y < 0 {
      TruncDivNegative(x, y);
    }
    QuotientMagnitude(Magnitude(x), Magnitude(y));
    assert y == -1 ==> TruncDiv(x, y) == -x;
  }

  // ---------- The ALU against the manual ----------

  lemma DivMatchesIsa(a: Word, b: Word)
    ensures AluResult(AluDiv, a, b) == Quotient(a, b)
  {
    if b != 0 && Signed(a) == -TWO_31 && Signed(b) == -1 {
      TruncDivNegative(-TWO_31, -1);
    }
  }

  lemma RemMatchesIsa(a: Word, b: Word)
    ensures AluResult(AluRem, a, b) == Remainder(a, b)
  {
    if b != 0 {
      WrappingRemIsRemainder(Signed(a), Signed(b));
    }
  }

  lemma BaseAluMatchesIsa(op: Op, a: Word, b: Word)
    requires IsRegister(op) && !IsMul(op) && !IsDiv(op)
    ensures AluResult(AluOpOf(op), a, b) == Isa.Compute(op, a, b)
  {
    hide Words.Xor, Words.Or, Words.And, Signed, Pow2;
  }

  lemma MAluMatchesIsa(op: Op, a: Word, b: Word)
    requires IsMul(op) || IsDiv(op)
    ensures AluResult(AluOpOf(op), a, b) == Isa.Compute(op, a, b)
  {
    hide Remainder, Quotient, TruncDiv, WrappingRem, Signed, Wrap;
    if op.Mul? {
      LowProduct(a, b);
    } else if op.Div? {
      DivMatchesIsa(a, b);
    } else if op.Rem? {
      RemMatchesIsa(a, b);
    }
  }

  /** The ALU selected for an instruction computes what the manual defines for it. */
  lemma AluMatchesIsa(op: Op, a: Word, b: Word)
    requires IsRegister(op)
    ensures AluResult(AluOpOf(op), a, b) == Isa.Compute(op, a, b)
  {
    hide AluResult, Isa.Compute, AluOpOf;
    if IsMul(op) || IsDiv(op) {
      MAluMatchesIsa(op, a, b);
    } else {
      BaseAluMatchesIsa(op, a, b);
    }
  }

  lemma ByteExtends(signed: bool, v: nat)
    requires v < 256
    ensures Extend(ByteWide, signed, v) == if signed && v >= 128 then Wrap(v - 256) else Wrap(v)
  {
    assert Pow2(8) == 256 && Pow2(7) == 128;
    hide Pow2, Wrap;
  }

  lemma HalfExtends(signed: bool, v: nat)
    requires v < 0x1_0000
    ensures Extend(HalfWide, signed, v) == if signed && v >= 0x8000 then Wrap(v - 0x1_0000) else Wrap(v)
  {
    assert Pow2(16) == 0x1_0000 && Pow2(15) == 0x8000;
    hide Pow2, Wrap;
  }

  lemma WordExtends(signed: bool, v: nat)
    requires v < TWO_32
    ensures Extend(WordWide, signed, v) == Wrap(v)
  {
    Pow2Of32();
    hide Pow2;
  }

  /** Materializing a loaded value agrees with the manual's sign and zero extension. */
  lemma LoadedValueMatchesIsa(a: Access, bytes: seq<Byte>)
    requires a.Load? && |bytes| == Len(a.width)
    ensures LoadedValue(a, bytes) == Extend(a.width, a.signed, FromLe(bytes))
  {
    FromLeBound(bytes);
    assert Pow256(1) == 256 && Pow256(2) == 0x1_0000 && Pow256(3) == 0x100_0000 && Pow256(4) == TWO_32;
    hide Wrap, FromLe, Extend, Pow2, Pow256;
    match a.width {
      case ByteWide => ByteExtends(a.signed, FromLe(bytes));
      case HalfWide => HalfExtends(a.signed, FromLe(bytes));
      case WordWide => WordExtends(a.signed, FromLe(bytes));
    }
  }
}
