/** The memory a cache presents to its clients: the cached byte where a valid block holds the address, and the byte
    of the memory below everywhere else; and how the set operations change it. */
module CacheView {
  import opened Words
  import opened CacheConfig
  import opened CacheSet

  /** The sets of a cache with geometry `g`. */
  predicate SetsShaped(g: Geometry, sets: seq<SetState>) {
    && Sliceable(g)
    && |sets| == g.sets
    && forall i :: 0 <= i < |sets| ==> Shaped(sets[i]) && sets[i].ways == g.ways && sets[i].blockSize == g.blockSize
  }

  function ByteAt(g: Geometry, sets: seq<SetState>, below: Memory, addr: Word): Byte
    requires SetsShaped(g, sets)
  {
    SplitMeaning(g, addr);
    var s := sets[Index(g, addr)];
    var way := Find(s, Tag(g, addr));
    if way.Some? then s.blocks[way.value][Offset(g, addr)] else below[addr]
  }

  /** The view: what a client reads at every address. */
  function View(g: Geometry, sets: seq<SetState>, below: Memory): (v: Memory)
    requires SetsShaped(g, sets)
    ensures forall a :: 0 <= a < TWO_32 ==> v[a] == ByteAt(g, sets, below, a)
  {
    seq(TWO_32, a requires 0 <= a < TWO_32 => ByteAt(g, sets, below, a))
  }

  // ---------- Invariants of a set ----------

  predicate DistinctTags(s: SetState)
    requires Shaped(s)
  {
    forall i, j :: 0 <= i < j < s.ways && s.valid[i] && s.valid[j] ==> s.tags[i] != s.tags[j]
  }

  predicate DirtyIsValid(s: SetState)
    requires Shaped(s)
  {
    forall w :: 0 <= w < s.ways && s.dirty[w] ==> s.valid[w]
  }

  predicate NoneDirty(s: SetState)
    requires Shaped(s)
  {
    forall w :: 0 <= w < s.ways ==> !s.dirty[w]
  }

  predicate TagsFit(g: Geometry, s: SetState)
    requires Sliceable(g) && Shaped(s)
  {
    forall w :: 0 <= w < s.ways && s.valid[w] ==> s.tags[w] < Pow2(TagBits(g))
  }

  /** `block` is what `m` holds at `base`. */
  predicate SameBytes(block: seq<Byte>, base: nat, m: Memory) {
    base + |block| <= TWO_32 && block == m[base..base + |block|]
  }

  /** Every clean valid block is a copy of the memory. */
  predicate Coherent(g: Geometry, s: SetState, index: nat, m: Memory)
    requires Sliceable(g) && Shaped(s)
  {
    forall w :: 0 <= w < s.ways && s.valid[w] && !s.dirty[w] ==>
                  SameBytes(s.blocks[w], BlockAddr(g, s.tags[w], index), m)
  }

  predicate SetOk(g: Geometry, s: SetState, index: nat, m: Memory)
    requires Sliceable(g) && Shaped(s)
  {
    DistinctTags(s) && DirtyIsValid(s) && TagsFit(g, s) && Coherent(g, s, index, m)
  }

  predicate AllOk(g: Geometry, sets: seq<SetState>, m: Memory) {
    SetsShaped(g, sets) && forall i :: 0 <= i < |sets| ==> SetOk(g, sets[i], i, m)
  }

  // ---------- Addresses in one block ----------

  lemma Neighbours(g: Geometry, addr: Word, k: nat)
    requires Sliceable(g) && Offset(g, addr) + k < g.blockSize
    ensures addr + k < TWO_32
    ensures Tag(g, addr + k) == Tag(g, addr) && Index(g, addr + k) == Index(g, addr)
    ensures Offset(g, addr + k) == Offset(g, addr) + k
  {
    hide Tag, Index, Offset, BlockAddr;
    SplitThenJoin(g, addr);
    JoinThenSplit(g, Tag(g, addr), Index(g, addr), Offset(g, addr) + k);
  }

  /** Two addresses with the same tag and index differ by their offsets. */
  lemma SameBlockDistance(g: Geometry, a: Word, b: Word)
    requires Sliceable(g) && Tag(g, a) == Tag(g, b) && Index(g, a) == Index(g, b)
    ensures a - b == Offset(g, a) - Offset(g, b)
  {
    hide Tag, Index, Offset, BlockAddr;
    SplitThenJoin(g, a);
    SplitThenJoin(g, b);
  }

  /** An access inside one block meets an address exactly when tag, index and offset do. */
  lemma AccessMeets(g: Geometry, addr: Word, len: nat, a: Word)
    requires Sliceable(g) && Offset(g, addr) + len <= g.blockSize
    ensures addr <= a < addr + len <==>
              && Tag(g, a) == Tag(g, addr) && Index(g, a) == Index(g, addr)
              && Offset(g, addr) <= Offset(g, a) < Offset(g, addr) + len
  {
    hide Tag, Index, Offset, BlockAddr;
    if addr <= a < addr + len {
      Neighbours(g, addr, a - addr);
    }
    if Tag(g, a) == Tag(g, addr) && Index(g, a) == Index(g, addr) {
      SameBlockDistance(g, a, addr);
    }
  }

  /** A whole block holds exactly the addresses with its tag and index. */
  lemma BlockMeets(g: Geometry, tag: nat, index: nat, a: Word)
    requires Sliceable(g) && tag < Pow2(TagBits(g)) && index < g.sets
    ensures var base := BlockAddr(g, tag, index);
            && base + g.blockSize <= TWO_32
            && (base <= a < base + g.blockSize <==> Tag(g, a) == tag && Index(g, a) == index)
            && (Tag(g, a) == tag && Index(g, a) == index ==> a == base + Offset(g, a) && Offset(g, a) < g.blockSize)
  {
    hide Tag, Index, Offset, BlockAddr;
    BlockAddrMeaning(g, tag, index);
    SplitThenJoin(g, a);
    var base := BlockAddr(g, tag, index);
    if base <= a < base + g.blockSize {
      JoinThenSplit(g, tag, index, a - base);
    }
  }

  // ---------- Finding a tag ----------

  lemma FindSame(s: SetState, t: SetState, tag: nat)
    requires |s.tags| == |s.valid| && t.tags == s.tags && t.valid == s.valid
    ensures Find(s, tag) == Find(t, tag)
  {
    var v, w := Find(s, tag), Find(t, tag);
    assert v.Some? ==> Holds(t, v.value, tag);
    assert w.Some? ==> Holds(s, w.value, tag);
  }

  /** With distinct tags, a way that holds the tag is the one found. */
  lemma FindUnique(s: SetState, tag: nat, way: nat)
    requires Shaped(s) && DistinctTags(s) && Holds(s, way, tag)
    ensures Find(s, tag) == Some(way)
  {}

  // ---------- Set operations ----------

  /** Replacing the policy of a set, or promoting a way, is invisible. */
  lemma PolicyInvisible(g: Geometry, sets: seq<SetState>, index: nat, s: SetState, m: Memory, below: Memory)
    requires AllOk(g, sets, m) && index < |sets|
    requires Shaped(s) && s == sets[index].(rp := s.rp)
    ensures AllOk(g, sets[index := s], m)
    ensures View(g, sets[index := s], below) == View(g, sets, below)
  {
    hide Tag, Index, Offset, BlockAddr;
    var sets' := sets[index := s];
    forall a | 0 <= a < TWO_32
      ensures ByteAt(g, sets', below, a) == ByteAt(g, sets, below, a)
    {
      SplitMeaning(g, a);
      FindSame(s, sets[index], Tag(g, a));
    }
  }

  /** A load that hits reads its bytes of the view. */
  lemma HitReadsView(g: Geometry, sets: seq<SetState>, below: Memory, addr: Word, len: nat, way: nat)
    requires SetsShaped(g, sets) && Offset(g, addr) + len <= g.blockSize
    requires Index(g, addr) < g.sets && Find(sets[Index(g, addr)], Tag(g, addr)) == Some(way)
    ensures addr + len <= TWO_32
    ensures sets[Index(g, addr)].blocks[way][Offset(g, addr)..Offset(g, addr) + len]
            == View(g, sets, below)[addr..addr + len]
  {
    hide Tag, Index, Offset, BlockAddr;
    if len > 0 {
      Neighbours(g, addr, len - 1);
    }
    var data := sets[Index(g, addr)].blocks[way][Offset(g, addr)..Offset(g, addr) + len];
    forall k | 0 <= k < len
      ensures data[k] == View(g, sets, below)[addr + k]
    {
      Neighbours(g, addr, k);
    }
  }

  /** A store that hits changes exactly its bytes of the view. */
  lemma HitStoresView(g: Geometry, sets: seq<SetState>, below: Memory, addr: Word, data: seq<Byte>, way: nat, s: SetState)
    requires SetsShaped(g, sets) && Offset(g, addr) + |data| <= g.blockSize
    requires Index(g, addr) < g.sets && Find(sets[Index(g, addr)], Tag(g, addr)) == Some(way)
    requires var old_ := sets[Index(g, addr)];
             && Shaped(s) && s.ways == old_.ways && s.blockSize == old_.blockSize
             && s.tags == old_.tags && s.valid == old_.valid && DistinctTags(old_)
             && s.blocks == old_.blocks[way := Patch(old_.blocks[way], Offset(g, addr), data)]
    ensures View(g, sets[Index(g, addr) := s], below) == Patch(View(g, sets, below), addr, data)
  {
    hide Tag, Index, Offset, BlockAddr;
    var index := Index(g, addr);
    var sets' := sets[index := s];
    forall a | 0 <= a < TWO_32
      ensures ByteAt(g, sets', below, a) ==
              if addr <= a < addr + |data| then data[a - addr] else ByteAt(g, sets, below, a)
    {
      SplitThenJoin(g, a);
      AccessMeets(g, addr, |data|, a);
      FindSame(s, sets[index], Tag(g, a));
      if Tag(g, a) == Tag(g, addr) && Index(g, a) == index {
        SameBlockDistance(g, a, addr);
      }
    }
  }

  /** Filling a way with a block copied from below keeps every set in order, whatever the way held. */
  lemma FillOk(g: Geometry, sets: seq<SetState>, index: nat, way: nat, tag: nat, block: seq<Byte>, s: SetState, m: Memory)
    requires AllOk(g, sets, m) && index < |sets| && way < g.ways && tag < Pow2(TagBits(g))
    requires Find(sets[index], tag).None?
    requires |block| == g.blockSize && SameBytes(block, BlockAddr(g, tag, index), m)
    requires Shaped(s)
    requires var o := sets[index];
             s == o.(blocks := o.blocks[way := block], tags := o.tags[way := tag], valid := o.valid[way := true],
                     dirty := o.dirty[way := false], rp := s.rp)
    ensures AllOk(g, sets[index := s], m)
    ensures Find(s, tag) == Some(way)
  {
    hide Tag, Index, Offset, BlockAddr, SameBytes;
    var o := sets[index];
    forall w | 0 <= w < o.ways && o.valid[w]
      ensures o.tags[w] != tag
    {
      assert !Holds(o, w, tag);
    }
    assert SetOk(g, s, index, m);
    FindUnique(s, tag, way);
  }

  /** Filling a way that holds nothing, or a copy of what is below, with a block copied from below is invisible. */
  lemma FillInvisible(g: Geometry, sets: seq<SetState>, index: nat, way: nat, tag: nat, block: seq<Byte>,
                      s: SetState, m: Memory)
    requires AllOk(g, sets, m) && index < |sets| && way < g.ways && tag < Pow2(TagBits(g))
    requires Find(sets[index], tag).None?
    requires |block| == g.blockSize && SameBytes(block, BlockAddr(g, tag, index), m)
    requires sets[index].valid[way] ==>
               SameBytes(sets[index].blocks[way], BlockAddr(g, sets[index].tags[way], index), m)
    requires Shaped(s)
    requires var o := sets[index];
             s == o.(blocks := o.blocks[way := block], tags := o.tags[way := tag], valid := o.valid[way := true],
                     dirty := o.dirty[way := false], rp := s.rp)
    ensures AllOk(g, sets[index := s], m)
    ensures View(g, sets[index := s], m) == View(g, sets, m)
    ensures Find(s, tag) == Some(way)
  {
    hide Tag, Index, Offset, BlockAddr, SameBytes;
    FillOk(g, sets, index, way, tag, block, s, m);
    var o, sets' := sets[index], sets[index := s];
    assert SetOk(g, sets'[index], index, m) && SetOk(g, o, index, m);
    forall a | 0 <= a < TWO_32
      ensures ByteAt(g, sets', m, a) == ByteAt(g, sets, m, a)
    {
      SplitThenJoin(g, a);
      if Index(g, a) == index {
        FillByte(g, o, s, index, way, tag, block, m, a);
      }
    }
  }

  /** Filling a way that holds anything else shows. */
  lemma FillLoses(g: Geometry, sets: seq<SetState>, index: nat, way: nat, tag: nat, s: SetState, m: Memory)
    requires AllOk(g, sets, m) && index < |sets| && way < g.ways
    requires Find(sets[index], tag).None? && sets[index].valid[way]
    requires !SameBytes(sets[index].blocks[way], BlockAddr(g, sets[index].tags[way], index), m)
    requires Shaped(s) && SetsShaped(g, sets[index := s])
    requires s.tags == sets[index].tags[way := tag] && s.valid == sets[index].valid[way := true]
    ensures View(g, sets[index := s], m) != View(g, sets, m)
  {
    var o, sets' := sets[index], sets[index := s];
    assert SetOk(g, o, index, m);
    var old' := o.tags[way];
    assert Holds(o, way, old');
    BlockAddrMeaning(g, old', index);
    var base := BlockAddr(g, old', index);
    var k :| 0 <= k < g.blockSize && o.blocks[way][k] != m[base + k];
    JoinThenSplit(g, old', index, k);
    var a: Word := base + k;
    FindUnique(o, old', way);
    assert ByteAt(g, sets, m, a) == o.blocks[way][k];
    assert !Holds(o, way, tag);
    assert Find(s, old').None?;
    assert ByteAt(g, sets', m, a) == m[a];
    assert View(g, sets, m)[a] != View(g, sets', m)[a];
  }

  lemma FillByte(g: Geometry, o: SetState, s: SetState, index: nat, way: nat, tag: nat, block: seq<Byte>, m: Memory, a: Word)
    requires Sliceable(g) && Shaped(o) && o.ways == g.ways && o.blockSize == g.blockSize && way < g.ways && index < g.sets
    requires DistinctTags(o) && TagsFit(g, o) && tag < Pow2(TagBits(g)) && Find(o, tag).None?
    requires |block| == g.blockSize && SameBytes(block, BlockAddr(g, tag, index), m)
    requires o.valid[way] ==> SameBytes(o.blocks[way], BlockAddr(g, o.tags[way], index), m)
    requires Shaped(s) && DistinctTags(s)
    requires s == o.(blocks := o.blocks[way := block], tags := o.tags[way := tag], valid := o.valid[way := true],
                     dirty := o.dirty[way := false], rp := s.rp)
    requires Index(g, a) == index
    ensures var t, k := Tag(g, a), Offset(g, a);
            && k < g.blockSize
            && (if Find(s, t).Some? then s.blocks[Find(s, t).value][k] else m[a])
               == (if Find(o, t).Some? then o.blocks[Find(o, t).value][k] else m[a])
  {
    hide Tag, Index, Offset, BlockAddr;
    var t := Tag(g, a);
    SplitThenJoin(g, a);
    if t == tag {
      FindUnique(s, tag, way);
      BlockMeets(g, tag, index, a);
    } else if Holds(o, way, t) {
      FindUnique(o, t, way);
      BlockMeets(g, t, index, a);
    } else if Find(o, t).Some? {
      var v := Find(o, t).value;
      assert Holds(s, v, t);
      FindUnique(s, t, v);
    } else {
      assert Find(s, t).Some? ==> Holds(o, Find(s, t).value, t);
    }
  }

  // ---------- Changes below ----------

  /** Writing below inside a block that is cached is invisible. */
  lemma BelowCachedInvisible(g: Geometry, sets: seq<SetState>, below: Memory, addr: Word, data: seq<Byte>)
    requires SetsShaped(g, sets) && Offset(g, addr) + |data| <= g.blockSize
    requires Index(g, addr) < g.sets && Find(sets[Index(g, addr)], Tag(g, addr)).Some?
    ensures View(g, sets, Patch(below, addr, data)) == View(g, sets, below)
  {
    hide Tag, Index, Offset, BlockAddr;
    forall a | 0 <= a < TWO_32
      ensures ByteAt(g, sets, Patch(below, addr, data), a) == ByteAt(g, sets, below, a)
    {
      SplitThenJoin(g, a);
      AccessMeets(g, addr, |data|, a);
    }
  }

  /** Writing below inside a block that is not cached shows up as it is. */
  lemma BelowUncachedVisible(g: Geometry, sets: seq<SetState>, below: Memory, addr: Word, data: seq<Byte>)
    requires SetsShaped(g, sets) && Offset(g, addr) + |data| <= g.blockSize
    requires Index(g, addr) < g.sets && Find(sets[Index(g, addr)], Tag(g, addr)).None?
    ensures View(g, sets, Patch(below, addr, data)) == Patch(View(g, sets, below), addr, data)
  {
    hide Tag, Index, Offset, BlockAddr;
    forall a | 0 <= a < TWO_32
      ensures ByteAt(g, sets, Patch(below, addr, data), a) ==
              if addr <= a < addr + |data| then data[a - addr] else ByteAt(g, sets, below, a)
    {
      SplitThenJoin(g, a);
      AccessMeets(g, addr, |data|, a);
    }
  }

  /** A write inside one block leaves the bytes of every other block alone. */
  lemma OtherBlocksKept(g: Geometry, addr: Word, data: seq<Byte>, tag: nat, index: nat, block: seq<Byte>, m: Memory)
    requires Sliceable(g) && Offset(g, addr) + |data| <= g.blockSize
    requires tag < Pow2(TagBits(g)) && index < g.sets && |block| == g.blockSize
    requires tag != Tag(g, addr) || index != Index(g, addr)
    requires SameBytes(block, BlockAddr(g, tag, index), m)
    ensures SameBytes(block, BlockAddr(g, tag, index), Patch(m, addr, data))
  {
    hide Tag, Index, Offset, BlockAddr;
    var base := BlockAddr(g, tag, index);
    var m' := Patch(m, addr, data);
    forall k | 0 <= k < g.blockSize
      ensures block[k] == m'[base + k]
    {
      BlockMeets(g, tag, index, base + k);
      AccessMeets(g, addr, |data|, base + k);
      assert block[k] == m[base + k];
    }
    assert block == m'[base..base + g.blockSize];
  }

  /** A write inside one block, made to a copy of it and to the memory, keeps the copy. */
  lemma OwnBlockFollows(g: Geometry, addr: Word, data: seq<Byte>, block: seq<Byte>, m: Memory)
    requires Sliceable(g) && Offset(g, addr) + |data| <= g.blockSize && |block| == g.blockSize
    requires SameBytes(block, BlockAddr(g, Tag(g, addr), Index(g, addr)), m)
    ensures SameBytes(Patch(block, Offset(g, addr), data), BlockAddr(g, Tag(g, addr), Index(g, addr)), Patch(m, addr, data))
  {
    hide Tag, Index, Offset, BlockAddr;
    SplitThenJoin(g, addr);
    var base, off := BlockAddr(g, Tag(g, addr), Index(g, addr)), Offset(g, addr);
    assert addr == base + off;
    var m' := Patch(m, addr, data);
    var block' := Patch(block, off, data);
    forall k | 0 <= k < g.blockSize
      ensures block'[k] == m'[base + k]
    {
      assert block[k] == m[base + k];
    }
    assert block' == m'[base..base + g.blockSize];
  }

  /** A write below inside a block no clean way holds keeps every set coherent. */
  lemma PatchKeepsOthers(g: Geometry, s: SetState, index: nat, addr: Word, data: seq<Byte>, m: Memory)
    requires Sliceable(g) && Shaped(s) && s.blockSize == g.blockSize && index < g.sets && SetOk(g, s, index, m)
    requires Offset(g, addr) + |data| <= g.blockSize
    requires index == Index(g, addr) ==>
               forall w :: 0 <= w < s.ways && s.valid[w] && s.tags[w] == Tag(g, addr) ==> s.dirty[w]
    ensures SetOk(g, s, index, Patch(m, addr, data))
  {
    hide Tag, Index, Offset, BlockAddr, SameBytes;
    forall w | 0 <= w < s.ways && s.valid[w] && !s.dirty[w]
      ensures SameBytes(s.blocks[w], BlockAddr(g, s.tags[w], index), Patch(m, addr, data))
    {
      OtherBlocksKept(g, addr, data, s.tags[w], index, s.blocks[w], m);
    }
  }

  lemma PatchKeepsAll(g: Geometry, sets: seq<SetState>, addr: Word, data: seq<Byte>, m: Memory)
    requires AllOk(g, sets, m) && Index(g, addr) < g.sets && Offset(g, addr) + |data| <= g.blockSize
    requires var s := sets[Index(g, addr)];
             forall w :: 0 <= w < s.ways && s.valid[w] && s.tags[w] == Tag(g, addr) ==> s.dirty[w]
    ensures AllOk(g, sets, Patch(m, addr, data))
  {
    hide Tag, Index, Offset, SetOk;
    forall i | 0 <= i < |sets|
      ensures SetOk(g, sets[i], i, Patch(m, addr, data))
    {
      PatchKeepsOthers(g, sets[i], i, addr, data, m);
    }
  }
}
