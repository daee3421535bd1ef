/** The bitwise operators and the shifts, bit by bit (execute.rs). The 32 bits determine a word, so these statements say
    exactly what the operators compute. */
module WordBits {
  import opened Words
  import opened CacheConfig

  /** Bit `k`, counted from the least significant. */
  predicate BitAt(n: int, k: nat) {
    (n / Pow2(k)) % 2 == 1
  }

  lemma BitZero(n: nat)
    ensures BitAt(n, 0) <==> n % 2 == 1
  {
    assert Pow2(0) == 1;
  }

  lemma BitUp(n: nat, k: nat)
    ensures BitAt(n, k + 1) <==> BitAt(n / 2, k)
  {
    DivDiv(n, 2, Pow2(k));
  }

  lemma {:induction false} NoBits(k: nat)
    ensures !BitAt(0, k)
  {
    if k > 0 {
      NoBits(k - 1);
      BitUp(0, k - 1);
    } else {
      BitZero(0);
    }
  }

  // ---------- And, or, exclusive or ----------

  lemma XorHalves(a: nat, b: nat)
    ensures BitXor(a, b) / 2 == BitXor(a / 2, b / 2)
    ensures BitXor(a, b) % 2 == (a + b) % 2
  {
    if a == 0 && b == 0 {
      assert BitXor(0, 0) == 0;
    } else {
      Halve((a + b) % 2, BitXor(a / 2, b / 2));
    }
  }

  lemma {:induction false} XorBits(a: nat, b: nat, k: nat)
    ensures BitAt(BitXor(a, b), k) <==> (BitAt(a, k) <==> !BitAt(b, k))
    decreases k
  {
    hide BitAt, Pow2, BitXor;
    XorHalves(a, b);
    if k == 0 {
      BitZero(a);
      BitZero(b);
      BitZero(BitXor(a, b));
    } else {
      XorBits(a / 2, b / 2, k - 1);
      BitUp(a, k - 1);
      BitUp(b, k - 1);
      BitUp(BitXor(a, b), k - 1);
    }
  }

  lemma Halve(low: nat, high: nat)
    requires low < 2
    ensures (low + 2 * high) / 2 == high && (low + 2 * high) % 2 == low
  {}

  lemma LowProduct(a: nat, b: nat)
    ensures (a % 2) * (b % 2) == if a % 2 == 1 && b % 2 == 1 then 1 else 0
  {}

  lemma AndHalves(a: nat, b: nat)
    ensures BitAnd(a, b) / 2 == BitAnd(a / 2, b / 2)
    ensures BitAnd(a, b) % 2 == if a % 2 == 1 && b % 2 == 1 then 1 else 0
  {
    LowProduct(a, b);
    Halve((a % 2) * (b % 2), BitAnd(a / 2, b / 2));
  }

  lemma {:induction false} AndBits(a: nat, b: nat, k: nat)
    ensures BitAt(BitAnd(a, b), k) <==> BitAt(a, k) && BitAt(b, k)
    decreases k
  {
    hide BitAt, Pow2, BitAnd;
    AndHalves(a, b);
    if k == 0 {
      BitZero(a);
      BitZero(b);
      BitZero(BitAnd(a, b));
    } else {
      AndBits(a / 2, b / 2, k - 1);
      BitUp(a, k - 1);
      BitUp(b, k - 1);
      BitUp(BitAnd(a, b), k - 1);
    }
  }

  /** The sum that makes up the inclusive or never carries. */
  function BitOr(a: nat, b: nat): nat {
    BitXor(a, b) + BitAnd(a, b)
  }

  lemma OrHalves(a: nat, b: nat)
    ensures BitOr(a, b) / 2 == BitOr(a / 2, b / 2)
    ensures BitOr(a, b) % 2 == if a % 2 == 1 || b % 2 == 1 then 1 else 0
  {
    XorHalves(a, b);
    AndHalves(a, b);
    hide BitXor, BitAnd;
  }

  lemma {:induction false} OrBits(a: nat, b: nat, k: nat)
    ensures BitAt(BitOr(a, b), k) <==> BitAt(a, k) || BitAt(b, k)
    decreases k
  {
    hide BitAt, Pow2, BitOr;
    OrHalves(a, b);
    if k == 0 {
      BitZero(a);
      BitZero(b);
      BitZero(BitOr(a, b));
    } else {
      OrBits(a / 2, b / 2, k - 1);
      BitUp(a, k - 1);
      BitUp(b, k - 1);
      BitUp(BitOr(a, b), k - 1);
    }
  }

  lemma {:induction false} OrBound(a: nat, b: nat, n: nat)
    requires a < Pow2(n) && b < Pow2(n)
    ensures BitOr(a, b) < Pow2(n)
  {
    if a > 0 || b > 0 {
      assert n > 0;
      OrBound(a / 2, b / 2, n - 1);
      OrHalves(a, b);
      hide BitOr;
    }
  }

  lemma WrapSmall(x: nat)
    requires x < TWO_32
    ensures Wrap(x) == x
  {}

  /** Bit k of each operator is the operator applied to the two bits k. */
  lemma BitwiseMeaning(a: Word, b: Word, k: nat)
    requires k < 32
    ensures BitAt(Words.And(a, b), k) <==> BitAt(a, k) && BitAt(b, k)
    ensures BitAt(Words.Or(a, b), k) <==> BitAt(a, k) || BitAt(b, k)
    ensures BitAt(Words.Xor(a, b), k) <==> (BitAt(a, k) <==> !BitAt(b, k))
  {
    hide BitAt, Pow2, BitXor, BitAnd;
    AndBits(a, b, k);
    XorBits(a, b, k);
    OrBits(a, b, k);
    Pow2Of32();
    OrBound(a, b, 32);
    WrapSmall(BitOr(a, b));
  }

  /** Two words with the same 32 bits are the same word. */
  lemma {:induction false} BitsDetermine(a: nat, b: nat, n: nat)
    requires a < Pow2(n) && b < Pow2(n)
    requires forall k: nat :: k < n ==> (BitAt(a, k) <==> BitAt(b, k))
    ensures a == b
  {
    if n > 0 {
      forall k: nat | k < n - 1
        ensures BitAt(a / 2, k) <==> BitAt(b / 2, k)
      {
        BitUp(a, k);
        BitUp(b, k);
        assert BitAt(a, k + 1) <==> BitAt(b, k + 1);
      }
      BitsDetermine(a / 2, b / 2, n - 1);
      assert BitAt(a, 0) <==> BitAt(b, 0);
      BitZero(a);
      BitZero(b);
    }
  }

  // ---------- Shifts ----------

  lemma {:induction false} BitOfMod(x: nat, n: nat, k: nat)
    requires k < n
    ensures BitAt(x % Pow2(n), k) <==> BitAt(x, k)
  {
    HalfOfMod(x, n);
    if k == 0 {
      BitZero(x);
      BitZero(x % Pow2(n));
    } else {
      BitOfMod(x / 2, n - 1, k - 1);
      BitUp(x, k - 1);
      BitUp(x % Pow2(n), k - 1);
    }
  }

  lemma HalfOfMod(x: nat, n: nat)
    requires n > 0
    ensures (x % Pow2(n)) / 2 == (x / 2) % Pow2(n - 1)
    ensures (x % Pow2(n)) % 2 == x % 2
  {
    var p := Pow2(n - 1);
    var h := x / 2;
    assert h == p * (h / p) + h % p;
    assert (h / p) * (2 * p) == 2 * (p * (h / p));
    DivModUnique(x, 2 * p, h / p, 2 * (h % p) + x % 2);
  }

  lemma {:induction false} BitOfScaled(a: nat, s: nat, k: nat)
    ensures BitAt(a * Pow2(s), k) <==> k >= s && BitAt(a, k - s)
  {
    if s > 0 {
      assert a * Pow2(s) == 2 * (a * Pow2(s - 1));
      if k == 0 {
        BitZero(a * Pow2(s));
      } else {
        BitUp(a * Pow2(s), k - 1);
        BitOfScaled(a, s - 1, k - 1);
      }
    } else {
      assert a * Pow2(0) == a;
    }
  }

  lemma BitOfQuotient(a: nat, s: nat, k: nat)
    ensures BitAt(a / Pow2(s), k) <==> BitAt(a, k + s)
  {
    DivDiv(a, Pow2(s), Pow2(k));
    Pow2Sum(s, k);
  }

  lemma HighBits(a: nat, n: nat, k: nat)
    requires a < Pow2(n) && k >= n
    ensures !BitAt(a, k)
  {
    Pow2Monotone(n, k);
    DivModUnique(a, Pow2(k), 0, a);
  }

  lemma TimesLess(q: nat, p: nat)
    requires p >= 1
    ensures q * (p - 1) == p * q - q == (p - 1) * q >= 0
  {
    MulAtLeastOnce(p, q);
  }

  lemma Shifted(h: nat, p: nat, q: nat)
    ensures (h - q) * p == h * p - p * q
  {}

  /** Two's complement: the quotient of a negative word by 2^s is its high bits with ones on top. */
  lemma NegativeQuotient(a: Word, s: nat)
    requires a >= TWO_31 && s < 32
    ensures a / Pow2(s) < Pow2(32 - s)
    ensures Wrap(Signed(a) / Pow2(s)) == a / Pow2(s) + (Pow2(s) - 1) * Pow2(32 - s)
  {
    hide Pow2, Wrap;
    var p, q := Pow2(s), Pow2(32 - s);
    Pow2Sum(s, 32 - s);
    Pow2Of32();
    FieldBound(a, p, q);
    TimesLess(q, p);
    QuotientBelow(a, p, q);
    WrapNegative(a / p - q);
  }

  lemma FieldBound(a: Word, p: nat, q: nat)
    requires p >= 1 && q >= 1 && p * q == TWO_32
    ensures 0 <= a / p < q <= TWO_32
  {
    DivBound(a, p, q);
    MulAtLeastOnce(p, q);
    QuotientSmaller(a, p);
  }

  lemma QuotientBelow(a: nat, p: nat, q: nat)
    requires p >= 1 && a <= p * q
    ensures (a - p * q) / p == a / p - q
  {
    Shifted(a / p, p, q);
    assert a == p * (a / p) + a % p;
    DivModUnique(a - p * q, p, a / p - q, a % p);
  }

  lemma WrapNegative(x: int)
    requires -TWO_32 <= x < 0
    ensures Wrap(x) == x + TWO_32
  {}

  lemma PowStep(s: nat)
    requires s > 0
    ensures Pow2(s) == 2 * Pow2(s - 1)
  {}

  lemma OnesHalf(p: nat)
    requires p >= 1
    ensures (2 * p - 1) / 2 == p - 1 && (2 * p - 1) % 2 == 1
  {}

  lemma {:induction false} OnesBits(s: nat, k: nat)
    requires k < s
    ensures BitAt(Pow2(s) - 1, k)
  {
    hide Pow2, BitAt;
    PowStep(s);
    OnesHalf(Pow2(s - 1));
    if k == 0 {
      BitZero(Pow2(s) - 1);
    } else {
      OnesBits(s - 1, k - 1);
      BitUp(Pow2(s) - 1, k - 1);
    }
  }

  lemma ScaledNat(a: nat, p: nat)
    ensures a * p >= 0
  {}

  lemma LeftShift(a: Word, s: nat, k: nat)
    requires k < 32
    ensures BitAt(Wrap(a * Pow2(s)), k) <==> k >= s && BitAt(a, k - s)
  {
    hide Pow2, BitAt;
    Pow2Of32();
    ScaledNat(a, Pow2(s));
    BitOfScaled(a, s, k);
    BitOfMod(a * Pow2(s), 32, k);
  }

  lemma SignedShift(a: Word, s: nat, k: nat)
    requires s < 32 && k < 32
    ensures BitAt(Wrap(Signed(a) / Pow2(s)), k) <==> BitAt(a, if k + s < 32 then k + s else 31)
  {
    SignBit(a);
    if a < TWO_31 {
      hide Pow2, BitAt, Wrap;
      RightShift(a, s, k);
      WrapSmall(a / Pow2(s));
    } else {
      hide Pow2, BitAt, Wrap, Signed;
      NegativeShift(a, s, k);
    }
  }

  /** Shifting right and left by `s` moves bit k + s to bit k and back, with zeros, or copies of bit 31, moving in. */
  lemma ShiftMeaning(a: Word, s: nat, k: nat)
    requires s < 32 && k < 32
    ensures BitAt(Wrap(a * Pow2(s)), k) <==> k >= s && BitAt(a, k - s)
    ensures BitAt(Wrap(a / Pow2(s)), k) <==> k + s < 32 && BitAt(a, k + s)
    ensures BitAt(Wrap(Signed(a) / Pow2(s)), k) <==> BitAt(a, if k + s < 32 then k + s else 31)
  {
    hide Pow2, BitAt, Wrap, Signed;
    LeftShift(a, s, k);
    RightShift(a, s, k);
    WrapSmall(a / Pow2(s));
    SignedShift(a, s, k);
  }

  lemma RightShift(a: Word, s: nat, k: nat)
    requires k < 32
    ensures 0 <= a / Pow2(s) <= a && (BitAt(a / Pow2(s), k) <==> k + s < 32 && BitAt(a, k + s))
  {
    BitOfQuotient(a, s, k);
    Pow2Of32();
    if k + s >= 32 {
      HighBits(a, 32, k + s);
    }
    QuotientSmaller(a, Pow2(s));
  }

  lemma QuotientSmaller(a: nat, d: nat)
    requires d >= 1
    ensures 0 <= a / d <= a
  {
    assert a == d * (a / d) + a % d;
    MulAtLeastOnce(d, a / d);
  }

  lemma SignBit(a: Word)
    ensures BitAt(a, 31) <==> a >= TWO_31
  {
    assert Pow2(31) == TWO_31 by {
      Pow2Of32();
      assert Pow2(32) == 2 * Pow2(31);
    }
    hide Pow2;
  }

  lemma NegativeShift(a: Word, s: nat, k: nat)
    requires a >= TWO_31 && s < 32 && k < 32
    ensures BitAt(Wrap(Signed(a) / Pow2(s)), k) <==> k + s >= 32 || BitAt(a, k + s)
  {
    hide Pow2, BitAt, Wrap, Signed;
    NegativeQuotient(a, s);
    NegativeParts(a, Pow2(s), s, k);
  }

  lemma NegativeParts(a: Word, p: nat, s: nat, k: nat)
    requires s < 32 && k < 32 && p == Pow2(s) && a / p < Pow2(32 - s)
    ensures (p - 1) * Pow2(32 - s) >= 0
    ensures BitAt(a / p + (p - 1) * Pow2(32 - s), k) <==> k + s >= 32 || BitAt(a, k + s)
  {
    TimesLess(Pow2(32 - s), p);
    QuotientSmaller(a, p);
    HighAndLow(a / p, p - 1, s, k);
    if k + s < 32 {
      BitOfQuotient(a, s, k);
    } else {
      OnesBits(s, k - (32 - s));
    }
    hide BitAt, Pow2;
  }

  /** A word put together from 32 - s low bits and what is above them. */
  lemma HighAndLow(low: nat, high: nat, s: nat, k: nat)
    requires s <= 32 && low < Pow2(32 - s) && high * Pow2(32 - s) >= 0
    ensures BitAt(low + high * Pow2(32 - s), k) <==> if k + s < 32 then BitAt(low, k) else BitAt(high, k - (32 - s))
  {
    var q := Pow2(32 - s);
    var v := low + high * q;
    DivModUnique(v, q, high, low);
    if k + s < 32 {
      BitOfMod(v, 32 - s, k);
    } else {
      BitOfQuotient(v, 32 - s, k - (32 - s));
    }
    hide BitAt, Pow2;
  }
}
