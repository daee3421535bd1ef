/** Machine words, bytes and the flat byte memory shared by the processor and the memory hierarchy. */
module Words {

  const TWO_31: int := 0x8000_0000
  const TWO_32: int := 0x1_0000_0000

  type Word = x: int | 0 <= x < 0x1_0000_0000
  type Byte = x: int | 0 <= x < 256

  datatype Option<+T> = None | Some(value: T)

  /** Truncation to 32 bits, as the wrapping operators and `as u32` casts do. */
  function Wrap(x: int): Word {
    x % TWO_32
  }

  /** The value of a word read as a two's complement number. */
  function Signed(w: Word): (s: int)
    ensures -TWO_31 <= s < TWO_31
    ensures Wrap(s) == w
  {
    if w < TWO_31 then w else w - TWO_32
  }

  function Pow2(n: nat): (p: nat)
    ensures p >= 1
  {
    if n == 0 then 1 else 2 * Pow2(n - 1)
  }

  // ---------- Bitwise operators, one bit at a time ----------

  function BitXor(a: nat, b: nat): (r: nat)
    ensures forall n: nat :: a < Pow2(n) && b < Pow2(n) ==> r < Pow2(n)
  {
    if a == 0 && b == 0 then 0
    else
      var hi := BitXor(a / 2, b / 2);
      assert forall n: nat :: a < Pow2(n) && b < Pow2(n) ==> n > 0 && Pow2(n) == 2 * Pow2(n - 1);
      (a + b) % 2 + 2 * hi
  }

  function BitAnd(a: nat, b: nat): (r: nat)
    ensures r <= a && r <= b
  {
    if a == 0 || b == 0 then 0
    else (a % 2) * (b % 2) + 2 * BitAnd(a / 2, b / 2)
  }

  lemma Pow2Of32()
    ensures Pow2(32) == TWO_32
  {
    assert Pow2(8) == 0x100;
    assert Pow2(16) == 0x1_0000;
    assert Pow2(24) == 0x100_0000;
  }

  function Xor(a: Word, b: Word): Word {
    Pow2Of32();
    BitXor(a, b)
  }

  function And(a: Word, b: Word): Word {
    BitAnd(a, b)
  }

  /** Inclusive or: the bits set in exactly one operand, plus those set in both. */
  function Or(a: Word, b: Word): Word {
    Wrap(Xor(a, b) + And(a, b))
  }

  // ---------- Byte memory over the whole 32-bit address space ----------

  /** The memory with `bytes` written from `addr` on; bytes past the end are dropped. */
  function Patch(m: seq<Byte>, addr: nat, bytes: seq<Byte>): (r: seq<Byte>)
    ensures |r| == |m|
    ensures forall i :: 0 <= i < |m| ==>
              r[i] == if addr <= i < addr + |bytes| then bytes[i - addr] else m[i]
  {
    seq(|m|, i requires 0 <= i < |m| => if addr <= i < addr + |bytes| then bytes[i - addr] else m[i])
  }

  type Memory = m: seq<Byte> | |m| == 0x1_0000_0000 witness seq(0x1_0000_0000, i => 0)

  /** Little-endian value of a byte string. */
  function FromLe(bytes: seq<Byte>): nat {
    if |bytes| == 0 then 0 else bytes[0] + 256 * FromLe(bytes[1..])
  }

  /** The `n` low bytes of a value, least significant first. */
  function ToLe(value: nat, n: nat): (bytes: seq<Byte>)
    ensures |bytes| == n
  {
    if n == 0 then [] else [value % 256] + ToLe(value / 256, n - 1)
  }

  function Pow256(n: nat): (p: nat)
    ensures p >= 1
  {
    if n == 0 then 1 else 256 * Pow256(n - 1)
  }

  lemma {:induction false} FromLeBound(bytes: seq<Byte>)
    ensures FromLe(bytes) < Pow256(|bytes|)
  {
    if |bytes| > 0 {
      FromLeBound(bytes[1..]);
    }
  }

  /** Storing the low bytes of a value and loading them back truncates the value. */
  lemma {:induction false} LeRoundTrip(value: nat, n: nat)
    ensures FromLe(ToLe(value, n)) == value % Pow256(n)
  {
    if n == 0 {
      DivModUnique(value, 1, value, 0);
    } else {
      LeRoundTrip(value / 256, n - 1);
      assert ToLe(value, n)[1..] == ToLe(value / 256, n - 1);
      ModByteByByte(value, Pow256(n - 1));
    }
  }

  lemma ModByteByByte(value: nat, p: nat)
    requires p >= 1
    ensures value % (256 * p) == value % 256 + 256 * ((value / 256) % p)
  {
    var rest := value / 256;
    var q, r := rest / p, rest % p;
    assert rest == p * q + r;
    assert q * (256 * p) == 256 * (p * q);
    DivModUnique(value, 256 * p, q, value % 256 + 256 * r);
  }

  lemma MulAtLeast(k: int, d: int)
    requires k >= 1 && d >= 0
    ensures k * d >= d
  {
    assert k * d == (k - 1) * d + d;
    assert (k - 1) * d >= 0;
  }

  /** Quotient and remainder of words are words. */
  lemma UnsignedFits(a: Word, b: Word)
    requires b != 0
    ensures 0 <= a / b <= a && 0 <= a % b < b && a == (a / b) * b + a % b
  {
    var q := a / b;
    assert a == b * q + a % b;
    MulAtLeastOnce(b, q);
  }

  lemma MulAtLeastOnce(b: nat, q: int)
    requires b >= 1
    ensures q >= 0 ==> b * q >= q
  {
    if q >= 0 {
      assert (b - 1) * q >= 0;
      assert b * q == (b - 1) * q + q;
    }
  }

  lemma DivModUnique(x: int, d: int, q: int, r: int)
    requires d > 0 && 0 <= r < d && x == q * d + r
    ensures x / d == q && x % d == r
  {
    var q', r' := x / d, x % d;
    assert x == d * q' + r' && 0 <= r' < d;
    var k := q - q';
    assert k * d == q * d - q' * d;
    if k >= 1 {
      MulAtLeast(k, d);
    } else if k <= -1 {
      MulAtLeast(-k, d);
    }
  }
}
