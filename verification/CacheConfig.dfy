/** Cache geometry (config.rs), write policies (write_policy.rs), the next-line prefetcher (prefetcher.rs) and the
    slicing of addresses into tag, index and offset (general_cache/mod.rs). */
module CacheConfig {
  import opened Words

  datatype Geometry = Geometry(blockSize: nat, ways: nat, sets: nat, offsetBits: nat, indexBits: nat)

  datatype ConfigError =
    | ZeroTotalSize
    | ZeroBlockSize
    | BlockSizeNotPowerOfTwo
    | ZeroAssociativity
    | SetCapacityOverflow
    | TotalSizeNotSetMultiple
    | NumSetsNotPowerOfTwo

  datatype GeometryResult = Valid(geometry: Geometry) | Invalid(error: ConfigError)

  const USIZE_LIMIT: int := 0x1_0000_0000_0000_0000

  predicate IsPowerOfTwo(n: nat) {
    n == 1 || (n > 0 && n % 2 == 0 && IsPowerOfTwo(n / 2))
  }

  /** Base-two logarithm, rounded down. */
  function Ilog2(n: nat): nat
    requires n > 0
  {
    if n == 1 then 0 else 1 + Ilog2(n / 2)
  }

  function NewGeometry(totalSize: nat, blockSize: nat, ways: nat): GeometryResult {
    if totalSize == 0 then Invalid(ZeroTotalSize)
    else if blockSize == 0 then Invalid(ZeroBlockSize)
    else if !IsPowerOfTwo(blockSize) then Invalid(BlockSizeNotPowerOfTwo)
    else if ways == 0 then Invalid(ZeroAssociativity)
    else
      var capacity := blockSize * ways;
      if capacity >= USIZE_LIMIT then Invalid(SetCapacityOverflow)
      else if totalSize % capacity != 0 then Invalid(TotalSizeNotSetMultiple)
      else
        var sets := totalSize / capacity;
        if !IsPowerOfTwo(sets) then Invalid(NumSetsNotPowerOfTwo)
        else Valid(Geometry(blockSize, ways, sets, Ilog2(blockSize), Ilog2(sets)))
  }

  lemma {:induction false} PowerOfTwoLog(n: nat)
    requires IsPowerOfTwo(n)
    ensures Pow2(Ilog2(n)) == n
  {
    if n > 1 {
      PowerOfTwoLog(n / 2);
    }
  }

  lemma {:induction false} PowersOfTwo(k: nat)
    ensures IsPowerOfTwo(Pow2(k)) && Ilog2(Pow2(k)) == k
  {
    if k > 0 {
      PowersOfTwo(k - 1);
      DoublePower(Pow2(k - 1));
    }
  }

  lemma DoublePower(p: nat)
    requires p > 0 && IsPowerOfTwo(p)
    ensures IsPowerOfTwo(2 * p) && Ilog2(2 * p) == 1 + Ilog2(p)
  {
    assert (2 * p) % 2 == 0 && (2 * p) / 2 == p;
  }

  /** The accepted configurations are exactly the sizes that factor into powers of two and a number of ways, and
      the bit widths measure the factors. */
  lemma GeometryFactors(totalSize: nat, blockSize: nat, ways: nat)
    ensures NewGeometry(totalSize, blockSize, ways).Valid? <==>
              exists o: nat, i: nat ::
                && blockSize == Pow2(o) && ways > 0 && blockSize * ways < 0x1_0000_0000_0000_0000
                && totalSize == Pow2(i) * (blockSize * ways)
    ensures var r := NewGeometry(totalSize, blockSize, ways);
            r.Valid? ==>
              var g := r.geometry;
              && g.blockSize == blockSize == Pow2(g.offsetBits)
              && g.sets == Pow2(g.indexBits)
              && g.ways == ways
              && g.sets * (g.blockSize * g.ways) == totalSize
  {
    var r := NewGeometry(totalSize, blockSize, ways);
    if r.Valid? {
      AcceptedFactors(totalSize, blockSize, ways);
      assert blockSize == Pow2(r.geometry.offsetBits) && totalSize == Pow2(r.geometry.indexBits) * (blockSize * ways);
    }
    hide NewGeometry;
    forall o: nat, i: nat | blockSize == Pow2(o) && ways > 0 && blockSize * ways < USIZE_LIMIT
                            && totalSize == Pow2(i) * (blockSize * ways)
      ensures r.Valid?
    {
      FactorsAccepted(totalSize, blockSize, ways, o, i);
    }
  }

  lemma AcceptedFactors(totalSize: nat, blockSize: nat, ways: nat)
    requires NewGeometry(totalSize, blockSize, ways).Valid?
    ensures var g := NewGeometry(totalSize, blockSize, ways).geometry;
            && g.blockSize == blockSize == Pow2(g.offsetBits)
            && g.sets == Pow2(g.indexBits)
            && g.ways == ways > 0 && blockSize * ways < USIZE_LIMIT
            && g.sets * (blockSize * ways) == totalSize
  {
    var g := NewGeometry(totalSize, blockSize, ways).geometry;
    PowerOfTwoLog(blockSize);
    PowerOfTwoLog(g.sets);
    MulPositive(blockSize, ways);
    Exact(totalSize, blockSize * ways);
  }

  lemma Exact(x: nat, d: nat)
    requires d > 0 && x % d == 0
    ensures (x / d) * d == x
  {
    assert x == d * (x / d) + x % d;
  }

  lemma FactorsAccepted(totalSize: nat, blockSize: nat, ways: nat, o: nat, i: nat)
    requires blockSize == Pow2(o) && ways > 0 && blockSize * ways < USIZE_LIMIT
    requires totalSize == Pow2(i) * (blockSize * ways)
    ensures NewGeometry(totalSize, blockSize, ways).Valid?
  {
    PowersOfTwo(o);
    PowersOfTwo(i);
    hide Pow2, Ilog2, IsPowerOfTwo;
    MulPositive(blockSize, ways);
    var capacity := blockSize * ways;
    MulPositive(Pow2(i), capacity);
    DivModUnique(totalSize, capacity, Pow2(i), 0);
  }

  // ---------- Write policies ----------

  datatype WritePolicy =
    | WriteBackWriteAllocate
    | WriteBackNoWriteAllocate
    | WriteThroughWriteAllocate
    | WriteThroughNoWriteAllocate
  {
    predicate IsWriteBack() {
      WriteBackWriteAllocate? || WriteBackNoWriteAllocate?
    }

    predicate IsWriteThrough() {
      !IsWriteBack()
    }

    predicate IsWriteAllocate() {
      WriteBackWriteAllocate? || WriteThroughWriteAllocate?
    }

    predicate IsNoWriteAllocate() {
      !IsWriteAllocate()
    }
  }

  // ---------- Prefetchers ----------

  datatype Prefetcher = NullPrefetcher | NextLinePrefetcher

  /** The address after the block of `addr`, stopping at the last address there is. */
  function Predict(p: Prefetcher, addr: Word, blockSize: nat): seq<Word>
    requires blockSize > 0
  {
    match p
    case NullPrefetcher => []
    case NextLinePrefetcher =>
      var next := addr - addr % blockSize + blockSize;
      [if next < TWO_32 then next else TWO_32 - 1]
  }

  // ---------- Addresses ----------

  /** What slicing needs: the widths measure the sizes, and the tag has at least one bit and not all 32. */
  predicate Sliceable(g: Geometry) {
    && g.blockSize == Pow2(g.offsetBits)
    && g.sets == Pow2(g.indexBits)
    && 0 < g.offsetBits + g.indexBits < 32
  }

  function TagBits(g: Geometry): nat
    requires Sliceable(g)
  {
    32 - g.offsetBits - g.indexBits
  }

  function Offset(g: Geometry, addr: Word): nat
    requires Sliceable(g)
  {
    addr % Pow2(g.offsetBits)
  }

  function Index(g: Geometry, addr: Word): nat
    requires Sliceable(g)
  {
    (addr / Pow2(g.offsetBits)) % Pow2(g.indexBits)
  }

  function Tag(g: Geometry, addr: Word): nat
    requires Sliceable(g)
  {
    (addr / Pow2(32 - TagBits(g))) % Pow2(TagBits(g))
  }

  lemma ModAtMost(x: nat, d: nat)
    requires d > 0
    ensures 0 <= x % d <= x
  {
    if x < d {
      DivModUnique(x, d, 0, x);
    }
  }

  /** The address rebuilt from a tag and an index, as the write-back and allocate requests do. */
  function BlockAddr(g: Geometry, tag: nat, index: nat): Word
    requires Sliceable(g)
  {
    var sum := Wrap(Wrap(tag * Pow2(g.indexBits + g.offsetBits)) + Wrap(index * Pow2(g.offsetBits)));
    ModAtMost(sum, Pow2(g.offsetBits));
    sum - sum % Pow2(g.offsetBits)
  }

  lemma {:induction false} Pow2Sum(a: nat, b: nat)
    ensures Pow2(a + b) == Pow2(a) * Pow2(b)
  {
    if a > 0 {
      Pow2Sum(a - 1, b);
      assert Pow2(a) * Pow2(b) == 2 * (Pow2(a - 1) * Pow2(b));
    }
  }

  lemma ScaleMod(q: nat, b: nat, s: nat)
    requires b > 0 && s > 0
    ensures b * (q % s) + b <= b * s
    ensures b * q == (q / s) * (b * s) + b * (q % s)
  {
    var k, r := q / s, q % s;
    assert q == s * k + r;
    calc {
      b * q;
      b * (s * k + r);
      b * (s * k) + b * r;
      k * (b * s) + b * r;
    }
    MulAtMost(b, r + 1, s);
    assert b * (r + 1) == b * r + b;
  }

  lemma MulAtMost(b: nat, x: nat, y: nat)
    requires x <= y
    ensures b * x <= b * y
  {}

  lemma MulPositive(b: nat, s: nat)
    requires b > 0 && s > 0
    ensures b * s > 0
  {}

  lemma DivDiv(x: nat, b: nat, s: nat)
    requires b > 0 && s > 0
    ensures b * s > 0 && x / (b * s) == (x / b) / s
  {
    MulPositive(b, s);
    var q := x / b;
    assert x == b * q + x % b;
    ScaleMod(q, b, s);
    DivModUnique(x, b * s, q / s, b * (q % s) + x % b);
  }

  lemma DivBound(x: nat, d: nat, k: nat)
    requires d > 0 && x < d * k
    ensures x / d < k
  {
    var q := x / d;
    assert x == d * q + x % d;
    if q >= k {
      MulAtMost(d, k, q);
      assert false;
    }
  }

  /** The sizes of the three fields multiply to the whole address space. */
  lemma FieldSizes(g: Geometry)
    requires Sliceable(g)
    ensures Pow2(32 - TagBits(g)) == g.blockSize * g.sets
    ensures Pow2(g.indexBits + g.offsetBits) == g.sets * g.blockSize
    ensures (g.blockSize * g.sets) * Pow2(TagBits(g)) == TWO_32
  {
    Pow2Sum(g.offsetBits, g.indexBits);
    Pow2Sum(g.indexBits, g.offsetBits);
    Pow2Sum(g.offsetBits + g.indexBits, TagBits(g));
    Pow2Of32();
  }

  lemma TagArithmetic(addr: nat, b: nat, s: nat, t: nat)
    requires b > 0 && s > 0 && t > 0 && addr < (b * s) * t
    ensures b * s > 0
    ensures (addr / (b * s)) % t == (addr / b) / s < t
  {
    MulPositive(b, s);
    DivDiv(addr, b, s);
    DivBound(addr, b * s, t);
    SmallMod(addr / (b * s), t);
  }

  lemma SmallMod(x: nat, t: nat)
    requires x < t
    ensures x % t == x
  {}

  /** The three fields are what dividing by the block size and the number of sets gives. */
  lemma SplitMeaning(g: Geometry, addr: Word)
    requires Sliceable(g)
    ensures Offset(g, addr) == addr % g.blockSize
    ensures Index(g, addr) == (addr / g.blockSize) % g.sets
    ensures Tag(g, addr) == (addr / g.blockSize) / g.sets < Pow2(TagBits(g))
  {
    FieldSizes(g);
    TagArithmetic(addr, g.blockSize, g.sets, Pow2(TagBits(g)));
    hide Pow2;
  }

  /** A block number below the number of blocks, and its base address. */
  lemma JoinArithmetic(tag: nat, index: nat, b: nat, s: nat, t: nat)
    requires b > 0 && s > 0 && tag < t && index < s
    ensures (tag * s + index) * b == tag * (s * b) + index * b
    ensures (tag * s + index) * b + b <= (b * s) * t
    ensures tag * (s * b) >= 0 && index * b >= 0
    ensures ((tag * s + index) * b) % b == 0
  {
    var block := tag * s + index;
    JoinProduct(tag, index, b, s);
    JoinBound(tag, index, b, s, t);
    DivModUnique(block * b, b, block, 0);
  }

  lemma JoinProduct(tag: nat, index: nat, b: nat, s: nat)
    ensures (tag * s + index) * b == tag * (s * b) + index * b
    ensures tag * (s * b) >= 0 && index * b >= 0
  {
    var x := tag * s;
    assert (x + index) * b == x * b + index * b;
    assert (tag * s) * b == tag * (s * b);
    assert s * b >= 0;
  }

  lemma JoinBound(tag: nat, index: nat, b: nat, s: nat, t: nat)
    requires tag < t && index < s
    ensures (tag * s + index) * b + b <= (b * s) * t
  {
    var block := tag * s + index;
    assert (tag + 1) * s == tag * s + s;
    MulAtMost(s, tag + 1, t);
    var blocks := t * s;
    assert block + 1 <= blocks;
    MulAtMost(b, block + 1, blocks);
    assert b * (block + 1) == block * b + b;
    assert b * (t * s) == (b * s) * t;
  }

  lemma BlockAddrMeaning(g: Geometry, tag: nat, index: nat)
    requires Sliceable(g) && tag < Pow2(TagBits(g)) && index < g.sets
    ensures BlockAddr(g, tag, index) == (tag * g.sets + index) * g.blockSize
    ensures BlockAddr(g, tag, index) + g.blockSize <= TWO_32
    ensures BlockAddr(g, tag, index) % g.blockSize == 0
  {
    FieldSizes(g);
    JoinArithmetic(tag, index, g.blockSize, g.sets, Pow2(TagBits(g)));
    hide Pow2;
    WrapSum(tag * (g.sets * g.blockSize), index * g.blockSize);
  }

  lemma WrapSum(x: nat, y: nat)
    requires x + y < TWO_32
    ensures Wrap(x) == x && Wrap(y) == y && Wrap(Wrap(x) + Wrap(y)) == x + y
  {}

  /** Slicing then rebuilding gives the base of the address's block, and the offset completes the address. */
  lemma SplitThenJoin(g: Geometry, addr: Word)
    requires Sliceable(g)
    ensures Offset(g, addr) < g.blockSize && Index(g, addr) < g.sets && Tag(g, addr) < Pow2(TagBits(g))
    ensures BlockAddr(g, Tag(g, addr), Index(g, addr)) == addr - addr % g.blockSize
    ensures BlockAddr(g, Tag(g, addr), Index(g, addr)) + Offset(g, addr) == addr
  {
    hide BlockAddr, Tag, Index, Offset;
    SplitMeaning(g, addr);
    BlockAddrMeaning(g, Tag(g, addr), Index(g, addr));
    hide Pow2;
    Recombine(addr, g.blockSize, g.sets);
  }

  lemma Recombine(addr: nat, b: nat, s: nat)
    requires b > 0 && s > 0
    ensures (((addr / b) / s) * s + (addr / b) % s) * b == addr - addr % b
  {
    var q := addr / b;
    assert (q / s) * s + q % s == q;
    assert q * b == addr - addr % b;
  }

  /** Rebuilding then slicing gives back the fields, so slicing is a bijection. */
  lemma JoinThenSplit(g: Geometry, tag: nat, index: nat, offset: nat)
    requires Sliceable(g) && tag < Pow2(TagBits(g)) && index < g.sets && offset < g.blockSize
    ensures var addr := BlockAddr(g, tag, index) + offset;
            && addr < TWO_32
            && Tag(g, addr) == tag && Index(g, addr) == index && Offset(g, addr) == offset
  {
    hide BlockAddr, Tag, Index, Offset;
    BlockAddrMeaning(g, tag, index);
    var addr := BlockAddr(g, tag, index) + offset;
    SplitMeaning(g, addr);
    hide Pow2;
    DivModUnique(addr, g.blockSize, tag * g.sets + index, offset);
    DivModUnique(tag * g.sets + index, g.sets, tag, index);
  }

  // ---------- Alignment ----------

  /** The check every request to a cache must pass. */
  predicate AlignmentOk(addr: Word, len: nat, blockSize: nat)
    requires blockSize > 0
  {
    if len == 1 then true
    else if len == 2 || len == 4 then addr % len == 0
    else
      && 0 < len <= blockSize
      && IsPowerOfTwo(len)
      && addr % len == 0
      && addr % blockSize + len <= blockSize
  }

  /** A power of two divides every larger one. */
  lemma {:induction false} PowersDivide(a: nat, b: nat)
    requires a <= b
    ensures Pow2(b) % Pow2(a) == 0
  {
    Pow2Sum(a, b - a);
    DivModUnique(Pow2(b), Pow2(a), Pow2(b - a), 0);
  }

  /** An aligned region no larger than a block lies in one block. */
  lemma AlignedFits(addr: nat, len: nat, blockSize: nat)
    requires len > 0 && blockSize > 0 && blockSize % len == 0 && addr % len == 0
    ensures addr % blockSize + len <= blockSize
  {
    var q, k, r := addr / blockSize, blockSize / len, addr % blockSize;
    assert addr == blockSize * q + r;
    assert blockSize == len * k;
    assert addr == len * (addr / len);
    assert blockSize * q == len * (k * q);
    var m := addr / len - k * q;
    assert len * m == len * (addr / len) - len * (k * q);
    assert r == len * m;
    if m >= k {
      MulAtMost(len, k, m);
      assert false;
    }
    MulAtMost(len, m + 1, k);
    assert len * (m + 1) == len * m + len;
  }

  /** The check, exactly: for blocks of four bytes or more it passes the naturally aligned requests of a power of two
      bytes that are no longer than a block. */
  lemma AlignmentIff(g: Geometry, addr: Word, len: nat)
    requires Sliceable(g) && g.blockSize >= 4
    ensures AlignmentOk(addr, len, g.blockSize) <==>
              exists k: nat :: len == Pow2(k) && len <= g.blockSize && addr % Pow2(k) == 0
  {
    assert Pow2(0) == 1 && Pow2(1) == 2 && Pow2(2) == 4;
    if AlignmentOk(addr, len, g.blockSize) {
      if len !in {1, 2, 4} {
        PowerOfTwoLog(len);
      }
      var k := if len == 1 then 0 else if len == 2 then 1 else if len == 4 then 2 else Ilog2(len);
      assert len == Pow2(k) && addr % Pow2(k) == 0;
    }
    forall k: nat | len == Pow2(k) && len <= g.blockSize && addr % Pow2(k) == 0
      ensures AlignmentOk(addr, len, g.blockSize)
    {
      AlignedPasses(g, addr, k);
    }
  }

  lemma AlignedPasses(g: Geometry, addr: Word, k: nat)
    requires Sliceable(g) && Pow2(k) <= g.blockSize && addr % Pow2(k) == 0
    ensures AlignmentOk(addr, Pow2(k), g.blockSize)
  {
    PowersOfTwo(k);
    if k > g.offsetBits {
      Pow2Monotone(g.offsetBits + 1, k);
      assert false;
    }
    PowersDivide(k, g.offsetBits);
    AlignedFits(addr, Pow2(k), g.blockSize);
  }

  /** Every request that passes the check of a cache with blocks of four bytes or more lies in one block. */
  lemma AlignedRequestFits(g: Geometry, addr: Word, len: nat)
    requires Sliceable(g) && g.blockSize >= 4 && AlignmentOk(addr, len, g.blockSize)
    ensures len >= 1 && Offset(g, addr) + len <= g.blockSize
  {
    if len == 2 || len == 4 {
      assert Pow2(1) == 2 && Pow2(2) == 4;
      assert g.offsetBits >= 2;
      PowersDivide(if len == 2 then 1 else 2, g.offsetBits);
      AlignedFits(addr, len, g.blockSize);
    }
  }

  /** A block of an upper cache, whole and aligned, passes the check of a lower cache with blocks at least as big. */
  lemma UpperBlockAligned(upper: Geometry, lower: Geometry, addr: Word)
    requires Sliceable(upper) && Sliceable(lower) && upper.offsetBits <= lower.offsetBits
    requires addr % upper.blockSize == 0
    ensures AlignmentOk(addr, upper.blockSize, lower.blockSize)
  {
    PowersOfTwo(upper.offsetBits);
    PowersDivide(upper.offsetBits, lower.offsetBits);
    Pow2Monotone(upper.offsetBits, lower.offsetBits);
    AlignedFits(addr, upper.blockSize, lower.blockSize);
  }

  lemma {:induction false} Pow2Monotone(a: nat, b: nat)
    requires a <= b
    ensures Pow2(a) <= Pow2(b)
  {
    if a < b {
      Pow2Monotone(a, b - 1);
    }
  }
}
